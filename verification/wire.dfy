/**
 What each operation actually puts on the UART. Every `snprintf` buffer is
 exactly as long as its template text, so the last character of a command
 that fills the template is lost; these lemmas spell out which one.
 */
module Wire {
  import opened Defs
  import opened CText
  import opened Numerals
  import opened Commands
  import opened Driver

  /** A transmitted snprintf-built command never reaches its buffer's capacity. */
  lemma CommandsFitTheirBuffers(st: Statics, index: uint8, mode: uint8, number: seq<char>, msg: seq<char>,
                                cnmiMode: uint8, mt: uint8, bm: uint8, ds: uint8, buffer: uint8,
                                rx: seq<char>)
    requires Valid(st) && ResponseBuffer(rx) && NulFree(number) && NulFree(msg)
    ensures |ReadSms(st, index, mode, rx).trace[0].bytes| < ReadSmsMessage
    ensures |DeleteSms(st, index, rx).trace[0].bytes| < DeleteSmsMessage
    ensures |RejectIncomingCall(st, mode, rx).trace[0].bytes| < LenRejectCall
    ensures |SendSms(st, number, msg, rx).trace[0].bytes| < SendSmsMessage + PhoneNumberLen
    ensures |SetSmsIndicationMode(st, cnmiMode, mt, bm, ds, buffer, rx).trace| > 0 ==>
              |SetSmsIndicationMode(st, cnmiMode, mt, bm, ds, buffer, rx).trace[0].bytes| < LenCnmiMode
  {
  }

  /**
   For in-range CNMI parameters exactly 16 bytes go out: the command up to
   and including the last comma. The `<buffer>` digit is never sent.
   */
  lemma CnmiBufferDigitNeverSent(st: Statics, mode: uint8, mt: uint8, bm: uint8, ds: uint8, buffer: uint8,
                                 rx: seq<char>)
    requires Valid(st) && CnmiInRange(mode, mt, bm, ds, buffer) && ResponseBuffer(rx)
    ensures SetSmsIndicationMode(st, mode, mt, bm, ds, buffer, rx).trace ==
              [Transmit("AT+CNMI=" + [DigitChar(mode), ',', DigitChar(mt), ',', DigitChar(bm), ',',
                                      DigitChar(ds), ',']),
               Receive]
    ensures |SetSmsIndicationMode(st, mode, mt, bm, ds, buffer, rx).trace[0].bytes| == LenCnmiMode - 1
  {
    CnmiTextShape(mode, mt, bm, ds, buffer);
    var text := CnmiText(mode, mt, bm, ds, buffer);
    assert Keep(text, LenCnmiMode) == text[..16];
    assert text[..16] == "AT+CNMI=" + [DigitChar(mode), ',', DigitChar(mt), ',', DigitChar(bm), ',',
                                       DigitChar(ds), ','];
  }

  /** Whatever the rejection mode, only `AT+GSMBUSY=` is sent: the mode never reaches the modem. */
  lemma RejectCallModeNeverSent(st: Statics, rejectionMode: uint8, rx: seq<char>)
    requires Valid(st) && ResponseBuffer(rx)
    ensures RejectIncomingCall(st, rejectionMode, rx).trace == [Transmit("AT+GSMBUSY="), Receive]
  {
  }

  /**
   CMGD keeps one index digit: indices 0-9 are sent whole, a two-digit
   index is sent as its tens digit, so deleting message 12 deletes message 1.
   */
  lemma DeleteSmsSendsOneDigit(st: Statics, index: uint8, rx: seq<char>)
    requires Valid(st) && ResponseBuffer(rx)
    ensures DeleteSms(st, index, rx).trace[0] == Transmit("AT+CMGD=" + [Decimal(index)[0]])
    ensures index < 10 ==> DeleteSms(st, index, rx).trace[0] == Transmit(CmgdText(index))
    ensures 10 <= index < 100 ==> DeleteSms(st, index, rx).trace[0] == Transmit("AT+CMGD=" + [DigitChar(index / 10)])
  {
    DecimalLeadingDigit(index);
    var text := CmgdText(index);
    assert text[..9] == "AT+CMGD=" + [Decimal(index)[0]];
  }

  /**
   CMGR keeps 11 characters: a one-digit index and mode are sent whole; a
   two-digit index pushes the mode digit out and the command ends in a comma.
   */
  lemma ReadSmsBytes(st: Statics, index: uint8, mode: uint8, rx: seq<char>)
    requires Valid(st) && ResponseBuffer(rx)
    ensures index < 10 && mode < 10 ==> ReadSms(st, index, mode, rx).trace[0] == Transmit(CmgrText(index, mode))
    ensures 10 <= index < 100 ==>
              ReadSms(st, index, mode, rx).trace[0] == Transmit("AT+CMGR=" + Decimal(index) + ",")
  {
    var text := CmgrText(index, mode);
    if 10 <= index < 100 {
      assert text[..11] == "AT+CMGR=" + Decimal(index) + ",";
    }
  }

  /**
   CMGS keeps 21 characters: numbers of up to 11 characters are sent with
   both quotes; from 12 characters on the closing quote is lost and only
   the first 12 characters of the number are sent.
   */
  lemma SendSmsCommandBytes(st: Statics, recipient: seq<char>, msg: seq<char>, rx: seq<char>)
    requires Valid(st) && NulFree(recipient) && NulFree(msg) && ResponseBuffer(rx)
    ensures |recipient| < PhoneNumberLen ==> SendSms(st, recipient, msg, rx).trace[0] == Transmit(CmgsText(recipient))
    ensures |recipient| >= PhoneNumberLen ==>
              SendSms(st, recipient, msg, rx).trace[0] == Transmit("AT+CMGS=\"" + recipient[..PhoneNumberLen])
  {
    var text := CmgsText(recipient);
    if |recipient| >= PhoneNumberLen {
      assert text[..21] == "AT+CMGS=\"" + recipient[..PhoneNumberLen];
    }
  }

  /**
   Sending "hello" to "+15551234567": the command loses its closing quote,
   then the delay, the body, Ctrl+Z and one receive, in that order.
   */
  lemma SendSmsExample(st: Statics, rx: seq<char>)
    requires Valid(st) && ResponseBuffer(rx)
    ensures SendSms(st, "+15551234567", "hello", rx).trace ==
              [Transmit("AT+CMGS=\"+15551234567"), Delay(1000), Transmit("hello"), Transmit([CtrlZ]), Receive]
    ensures SendSms(st, "+15551234567", "hello", rx).code == CheckResponse(rx)
  {
    var number := "+15551234567";
    SendSmsCommandBytes(st, number, "hello", rx);
    assert number[..PhoneNumberLen] == number;
    assert "AT+CMGS=\"" + number == "AT+CMGS=\"+15551234567";
    assert "hello"[..5] == "hello";
  }

  /** A message body of 256 bytes or more is sent only up to its length modulo 256. */
  lemma SendSmsLongBody(st: Statics, recipient: seq<char>, msg: seq<char>, rx: seq<char>)
    requires Valid(st) && NulFree(recipient) && NulFree(msg) && ResponseBuffer(rx)
    requires |msg| == 0x100 + 5
    ensures SendSms(st, recipient, msg, rx).trace[2] == Transmit(msg[..5])
  {
  }

  /**
   SMS format: a one-digit mode is sent as its digit; the byte wraps, so
   mode 208 sends a NUL in position 8. The buffer then keeps what was sent.
   */
  lemma SetSmsFormatDigit(st: Statics, formatMode: uint8, rx: seq<char>)
    requires Valid(st) && ResponseBuffer(rx)
    ensures formatMode < 10 ==>
              SetSmsFormat(st, formatMode, rx).trace[0] == Transmit(SmsFormatPrefix + [DigitChar(formatMode)])
    ensures formatMode == 208 ==> SetSmsFormat(st, formatMode, rx).trace[0] == Transmit(SmsFormatPrefix + [NUL])
    ensures |SetSmsFormat(st, formatMode, rx).trace[0].bytes| == SelectSmsMessageFormat
  {
  }

  /** A received response text followed by its terminator and arbitrary filler. */
  function Reply(text: seq<char>, pad: seq<char>): seq<char> {
    text + [NUL] + pad
  }

  /** The reply `OK` then `+CSQ: <n>,0`, as the modem words a signal report. */
  function CsqReply(n: nat): seq<char> {
    OkMarker + CsqMarker + Decimal(n) + ",0\r\n"
  }

  /**
   Any one-byte report `+CSQ: <n>,0` after an OK reads back as n, whatever
   text follows the report and wherever the terminator then falls: among
   the received bytes, or just after them in a larger caller buffer.
   */
  lemma {:induction false} SignalQualityReadsReport(st: Statics, n: uint8, more: seq<char>, pad: seq<char>)
    requires Valid(st) && NulFree(more) && |pad| >= BufferSize - |CsqReply(n) + more| - 1
    ensures ResponseBuffer(Reply(CsqReply(n) + more, pad)) && CsqReadable(Reply(CsqReply(n) + more, pad))
    ensures CheckResponse(Reply(CsqReply(n) + more, pad)) == ResponseOk
    ensures GetSignalQuality(st, Reply(CsqReply(n) + more, pad)).code == n
  {
    var text := CsqReply(n) + more;
    var rx := Reply(text, pad);
    assert NulFree(text) by {
      forall i | 0 <= i < |text|
        ensures text[i] != NUL
      {
        if i >= |CsqReply(n)| {
          assert text[i] == more[i - |CsqReply(n)|];
        }
      }
    }
    assert rx[|text|] == NUL;
    CStrOfTerminated(text, pad);
    assert text[..6] == OkMarker;
    assert OccursAt(OkMarker, text, 0);
    assert text[6..12] == CsqMarker;
    assert OccursAt(CsqMarker, text, 6);
    forall j: nat | j < 6
      ensures !OccursAt(CsqMarker, text, j)
    {
      assert text[j] == OkMarker[j] != '+';
    }
    assert FirstAt(text, CsqMarker, 6);
    assert text[12..] == [] + Decimal(n) + (",0\r\n" + more);
    AtoiOfDecimal([], n, ",0\r\n" + more);
    forall p: nat | p < |rx| && FirstAt(CStr(rx), CsqMarker, p)
      ensures CsqValue(rx, p) == n
    {
      FirstAtUnique(text, CsqMarker, p, 6);
    }
  }

  /** The report of signal strength 17 is the text `\r\nOK\r\n+CSQ: 17,0\r\n`. */
  lemma CsqReplySeventeen()
    ensures CsqReply(17) == "\r\nOK\r\n+CSQ: 17,0\r\n"
  {
    assert Decimal(1) == ['1'];
    assert Decimal(17) == Decimal(1) + [DigitChar(7)] == "17";
  }

  /** The reply `\r\nOK\r\n+CSQ: 17,0\r\n` reads as signal strength 17. */
  lemma SignalQualityExample(st: Statics, pad: seq<char>)
    requires Valid(st) && |pad| >= BufferSize - 19
    ensures CsqReply(17) == "\r\nOK\r\n+CSQ: 17,0\r\n"
    ensures ResponseBuffer(Reply(CsqReply(17), pad)) && CsqReadable(Reply(CsqReply(17), pad))
    ensures GetSignalQuality(st, Reply(CsqReply(17), pad)).code == 17
  {
    CsqReplySeventeen();
    assert CsqReply(17) + [] == CsqReply(17);
    SignalQualityReadsReport(st, 17, [], pad);
  }

  /** An ERROR reply classifies as RESPONSE_ERROR and gives no signal reading. */
  lemma SignalQualityOnError(st: Statics, pad: seq<char>)
    requires Valid(st) && |pad| >= BufferSize - |ErrorMarker| - 1
    ensures ResponseBuffer(Reply(ErrorMarker, pad)) && CsqReadable(Reply(ErrorMarker, pad))
    ensures CheckResponse(Reply(ErrorMarker, pad)) == ResponseError
    ensures GetSignalQuality(st, Reply(ErrorMarker, pad)).code == ResponseError
  {
    var rx := Reply(ErrorMarker, pad);
    assert rx[|ErrorMarker|] == NUL;
    CStrOfTerminated(ErrorMarker, pad);
    assert OccursAt(ErrorMarker, ErrorMarker, 0);
    forall j: nat | j <= |ErrorMarker|
      ensures !OccursAt(OkMarker, ErrorMarker, j)
    {
      if j == 0 {
        assert ErrorMarker[..6][2] == 'E';
      } else if j + 6 <= |ErrorMarker| {
        assert ErrorMarker[j..j + 6][0] == ErrorMarker[j] != '\r';
      }
    }
  }

  /**
   The return value cannot tell a reading of 1 from a failure: the report
   `+CSQ: 1,0` and an ERROR reply both give RESPONSE_ERROR (0x1).
   */
  lemma SignalStrengthOneLooksLikeError(st: Statics, pad1: seq<char>, pad2: seq<char>)
    requires Valid(st)
    requires |pad1| >= BufferSize - |CsqReply(1)| - 1 && |pad2| >= BufferSize - |ErrorMarker| - 1
    ensures ResponseBuffer(Reply(CsqReply(1), pad1)) && CsqReadable(Reply(CsqReply(1), pad1))
    ensures ResponseBuffer(Reply(ErrorMarker, pad2)) && CsqReadable(Reply(ErrorMarker, pad2))
    ensures CheckResponse(Reply(CsqReply(1), pad1)) == ResponseOk
    ensures GetSignalQuality(st, Reply(CsqReply(1), pad1)).code
         == GetSignalQuality(st, Reply(ErrorMarker, pad2)).code
         == ResponseError
  {
    assert CsqReply(1) + [] == CsqReply(1);
    SignalQualityReadsReport(st, 1, [], pad1);
    SignalQualityOnError(st, pad2);
  }

  /** A reply with the OK marker but no `+CSQ: ` line reports RESPONSE_ERROR, not a number. */
  lemma SignalQualityMissingPayload(st: Statics, pad: seq<char>)
    requires Valid(st) && |pad| >= BufferSize - |OkMarker| - 1
    ensures ResponseBuffer(Reply(OkMarker, pad)) && CsqReadable(Reply(OkMarker, pad))
    ensures CheckResponse(Reply(OkMarker, pad)) == ResponseOk
    ensures GetSignalQuality(st, Reply(OkMarker, pad)).code == ResponseError
  {
    var rx := Reply(OkMarker, pad);
    assert rx[|OkMarker|] == NUL;
    CStrOfTerminated(OkMarker, pad);
    assert OccursAt(OkMarker, OkMarker, 0);
    forall j: nat | j <= |OkMarker|
      ensures !OccursAt(CsqMarker, OkMarker, j)
    {
    }
  }
}
