/**
  Google's Eddystone frames inside 16-bit-UUID Service Data for UUID 0xFEAA
  (wire order `AA FE`): after the UUID a frame-type byte selects a UID, URL
  or TLM frame, whose bytes follow it up to the end of the record.
 */
module EddystoneParser {
  import opened Bytes
  import opened Reads
  import opened Seqs
  import opened Scanner
  import opened Beacon

  const ServiceUuidLow: byte := 0xAA
  const ServiceUuidHigh: byte := 0xFE
  const FrameUid: byte := 0x00
  const FrameUrl: byte := 0x10
  const FrameTlm: byte := 0x20
  /** TX power (1) + namespace (10) + instance (6). */
  const UidLength: nat := 17
  /** TX power (1) + scheme (1). */
  const UrlMinLength: nat := 2
  /** Version (1) + battery (2) + temperature (2) + advertising count (4) + seconds since boot (4). */
  const TlmLength: nat := 13

  // ---------------------------------------------------------------------
  // findEddystoneServiceData, canParse
  // ---------------------------------------------------------------------

  /**
    `findEddystoneServiceData`: the first Service Data record starting
    `AA FE`; the window starts at the UUID and holds the rest of the record,
    `ad_len - 1` bytes, so it never leaves the buffer.
   */
  function FindEddystoneServiceData(buf: Adv, rev: Revision): (r: Fetch<Option<Window>>)
    ensures r.PastEnd? ==> rev == AsWritten && r.index == |buf|
    ensures r.Got? && r.value.Some? ==> var w := r.value.value;
      && 2 <= w.offset && w.offset + 1 < |buf|
      && buf[w.offset - 1] == ServiceData
      && buf[w.offset] == ServiceUuidLow && buf[w.offset + 1] == ServiceUuidHigh
      && w.length == buf[w.offset - 2] as int - 1
      && w.End() <= |buf|
  {
    ScanFrom(buf, 0, EddystoneService, rev)
  }

  /** `canParse`: whether the Eddystone record is there. */
  function CanParse(buf: Adv, rev: Revision): (r: Fetch<bool>)
    ensures r.PastEnd? <==> FindEddystoneServiceData(buf, rev).PastEnd?
    ensures r == Got(true) <==> FindEddystoneServiceData(buf, rev).Got? && FindEddystoneServiceData(buf, rev).value.Some?
  {
    var found :- FindEddystoneServiceData(buf, rev);
    Got(found.Some?)
  }

  // ---------------------------------------------------------------------
  // URL scheme and suffix tables
  // ---------------------------------------------------------------------

  /** `decodeURLScheme`: the four URL scheme prefixes, or "" for any other code. */
  function DecodeUrlScheme(code: byte): (s: string)
    ensures |s| > 0 <==> code <= 0x03
  {
    if code == 0x00 then "http://www."
    else if code == 0x01 then "https://www."
    else if code == 0x02 then "http://"
    else if code == 0x03 then "https://"
    else ""
  }

  /** `decodeURLSuffix`: the fourteen expansion texts, or "" for a byte that is not one. */
  function DecodeUrlSuffix(code: byte): (s: string)
    ensures |s| > 0 <==> code <= 0x0D
  {
    if code == 0x00 then ".com/"
    else if code == 0x01 then ".org/"
    else if code == 0x02 then ".edu/"
    else if code == 0x03 then ".net/"
    else if code == 0x04 then ".info/"
    else if code == 0x05 then ".biz/"
    else if code == 0x06 then ".gov/"
    else if code == 0x07 then ".com"
    else if code == 0x08 then ".org"
    else if code == 0x09 then ".edu"
    else if code == 0x0A then ".net"
    else if code == 0x0B then ".info"
    else if code == 0x0C then ".biz"
    else if code == 0x0D then ".gov"
    else ""
  }

  /** The code an encoder writes for a scheme prefix: the table read backwards. */
  function SchemeCode(s: string): (r: Option<byte>)
    ensures r.Some? ==> r.value <= 0x03 && DecodeUrlScheme(r.value) == s
  {
    if s == "http://www." then Some(0x00)
    else if s == "https://www." then Some(0x01)
    else if s == "http://" then Some(0x02)
    else if s == "https://" then Some(0x03)
    else None
  }

  /** The four schemes are distinct, so each decodes from exactly one code. */
  lemma SchemeCodeOfScheme(code: byte)
    requires code <= 0x03
    ensures SchemeCode(DecodeUrlScheme(code)) == Some(code)
  {
  }

  /** The code an encoder writes for an expansion text: the table read backwards. */
  function SuffixCode(s: string): (r: Option<byte>)
    ensures r.Some? ==> r.value <= 0x0D && DecodeUrlSuffix(r.value) == s
  {
    if s == ".com/" then Some(0x00)
    else if s == ".org/" then Some(0x01)
    else if s == ".edu/" then Some(0x02)
    else if s == ".net/" then Some(0x03)
    else if s == ".info/" then Some(0x04)
    else if s == ".biz/" then Some(0x05)
    else if s == ".gov/" then Some(0x06)
    else if s == ".com" then Some(0x07)
    else if s == ".org" then Some(0x08)
    else if s == ".edu" then Some(0x09)
    else if s == ".net" then Some(0x0A)
    else if s == ".info" then Some(0x0B)
    else if s == ".biz" then Some(0x0C)
    else if s == ".gov" then Some(0x0D)
    else None
  }

  /** The fourteen expansions are distinct, so each decodes from exactly one code. */
  lemma SuffixCodeOfSuffix(code: byte)
    requires code <= 0x0D
    ensures SuffixCode(DecodeUrlSuffix(code)) == Some(code)
  {
  }

  // ---------------------------------------------------------------------
  // Frames
  // ---------------------------------------------------------------------

  /**
    `parseUID`: at least 17 bytes; the TX power is byte 0 read signed, the
    namespace bytes 1..10 and the instance bytes 11..16.
   */
  function ParseUid(frame: seq<byte>): (r: Option<EddystoneUidData>)
    ensures r.Some? <==> |frame| >= UidLength
    ensures r.Some? ==>
      && EddystoneUid(r.value).WellFormed()
      && [FromInt8(r.value.txPower)] + r.value.namespaceId + r.value.instanceId == frame[..UidLength]
  {
    if |frame| < UidLength then None
    else
      Int8RoundTrip(frame[0]);
      Some(EddystoneUidData(frame[1..11], frame[11..17], ToInt8(frame[0])))
  }

  /** The text one URL byte stands for: its expansion if it has one, else the byte as a character. */
  function Piece(b: byte): (s: string)
    ensures |s| > 0
  {
    if b <= 0x0D then DecodeUrlSuffix(b) else [b as char]
  }

  /** The URL text the encoded bytes stand for, each byte expanded in turn. */
  function Expand(body: seq<byte>): string {
    if |body| == 0 then "" else Piece(body[0]) + Expand(body[1..])
  }

  /** Expansion works byte by byte, so it distributes over concatenation. */
  lemma {:induction false} ExpandAppend(a: seq<byte>, b: seq<byte>)
    ensures Expand(a + b) == Expand(a) + Expand(b)
  {
    if |a| > 0 {
      assert (a + b)[1..] == a[1..] + b;
      ExpandAppend(a[1..], b);
      Associate(Piece(a[0]), Expand(a[1..]), Expand(b));
    } else {
      assert a + b == b;
    }
  }

  /** Bytes above the expansion codes are copied into the URL as they are. */
  lemma {:induction false} ExpandVerbatim(body: seq<byte>)
    requires forall i :: 0 <= i < |body| ==> body[i] > 0x0D
    ensures Expand(body) == seq(|body|, i requires 0 <= i < |body| => body[i] as char)
  {
    if |body| > 0 {
      var rest := body[1..];
      ExpandVerbatim(rest);
      var t := seq(|rest|, i requires 0 <= i < |rest| => rest[i] as char);
      assert Expand(body) == [body[0] as char] + t;
      assert [body[0] as char] + t == seq(|body|, i requires 0 <= i < |body| => body[i] as char);
    }
  }

  /** The loop of `parseURL` over frame bytes `i..`, `url` being the text so far. */
  function AppendBody(frame: seq<byte>, i: nat, url: string): (r: string)
    requires i <= |frame|
    decreases |frame| - i
    ensures |r| >= |url| + |frame| - i
    ensures r[..|url|] == url
  {
    if i == |frame| then url
    else
      var suffix := DecodeUrlSuffix(frame[i]);
      AppendBody(frame, i + 1, if |suffix| > 0 then url + suffix else url + [frame[i] as char])
  }

  /** The loop appends the expansion of the bytes it visits. */
  lemma {:induction false} AppendBodyExpands(frame: seq<byte>, i: nat, url: string)
    requires i <= |frame|
    decreases |frame| - i
    ensures AppendBody(frame, i, url) == url + Expand(frame[i..])
  {
    if i < |frame| {
      var p := Piece(frame[i]);
      assert AppendBody(frame, i, url) == AppendBody(frame, i + 1, url + p);
      AppendBodyExpands(frame, i + 1, url + p);
      assert Expand(frame[i..]) == p + Expand(frame[i + 1..]) by {
        assert frame[i..][1..] == frame[i + 1..];
      }
      Associate(url, p, Expand(frame[i + 1..]));
    }
  }

  /**
    `parseURL`: at least 2 bytes; byte 0 is the TX power read signed, byte 1
    must be a known scheme code, and the URL is that scheme followed by the
    expansion of every later byte.
   */
  function ParseUrl(frame: seq<byte>): (r: Option<EddystoneUrlData>)
    ensures r.Some? <==> |frame| >= UrlMinLength && frame[1] <= 0x03
    ensures r.Some? ==>
      && FromInt8(r.value.txPower) == frame[0]
      && r.value.url == DecodeUrlScheme(frame[1]) + Expand(frame[2..])
  {
    if |frame| < UrlMinLength then None
    else
      var scheme := DecodeUrlScheme(frame[1]);
      if |scheme| == 0 then None
      else
        Int8RoundTrip(frame[0]);
        AppendBodyExpands(frame, 2, scheme);
        Some(EddystoneUrlData(AppendBody(frame, 2, scheme), ToInt8(frame[0])))
  }

  /**
    `parseTLM`: at least 13 bytes and version 0; the battery voltage is bytes
    1-2, the temperature bytes 3-4 read as a signed 8.8 value, the advertising
    count bytes 5-8, and the uptime bytes 9-12 in tenths of a second, divided
    by ten; all big-endian.
   */
  function ParseTlm(frame: seq<byte>): (r: Option<EddystoneTlmData>)
    ensures r.Some? <==> |frame| >= TlmLength && frame[0] == 0x00
    ensures r.Some? ==>
      && Split16(r.value.batteryVoltage) == frame[1..3]
      && Split16(FromInt16(r.value.temperatureRaw)) == frame[3..5]
      && Split32(r.value.advCount) == frame[5..9]
      && r.value.uptime == BE32(frame[9..13]) / 10
  {
    if |frame| < TlmLength then None
    else if frame[0] != 0x00 then None
    else
      var temperature := BE16(frame[3], frame[4]);
      Split16BE16(frame[1], frame[2]);
      Split16BE16(frame[3], frame[4]);
      Int16RoundTrip(temperature);
      Split32BE32(frame[5..9]);
      Some(EddystoneTlmData(BE16(frame[1], frame[2]), ToInt16(temperature), BE32(frame[5..9]), BE32(frame[9..13]) / 10))
  }

  /** The `switch` on the frame type; any type but UID, URL and TLM fails. */
  function ParseFrame(frameType: byte, frame: seq<byte>): (r: Option<Payload>)
    ensures r.Some? ==> r.value.WellFormed()
    ensures r.Some? ==> (r.value.Type() ==
      if frameType == FrameUid then TypeEddystoneUid
      else if frameType == FrameUrl then TypeEddystoneUrl
      else TypeEddystoneTlm)
    ensures r.None? <==>
      || (frameType == FrameUid && |frame| < UidLength)
      || (frameType == FrameUrl && ParseUrl(frame).None?)
      || (frameType == FrameTlm && ParseTlm(frame).None?)
      || (frameType != FrameUid && frameType != FrameUrl && frameType != FrameTlm)
    ensures r.Some? && frameType == FrameUid ==> r.value == EddystoneUid(ParseUid(frame).value)
    ensures r.Some? && frameType == FrameUrl ==> r.value == EddystoneUrl(ParseUrl(frame).value)
    ensures r.Some? && frameType == FrameTlm ==> r.value == EddystoneTlm(ParseTlm(frame).value)
  {
    if frameType == FrameUid then
      match ParseUid(frame)
      case Some(d) => Some(EddystoneUid(d))
      case None => None
    else if frameType == FrameUrl then
      match ParseUrl(frame)
      case Some(d) => Some(EddystoneUrl(d))
      case None => None
    else if frameType == FrameTlm then
      match ParseTlm(frame)
      case Some(d) => Some(EddystoneTlm(d))
      case None => None
    else None
  }

  // ---------------------------------------------------------------------
  // parse
  // ---------------------------------------------------------------------

  /**
    `parse`: the Eddystone record's window must hold the UUID and a frame
    type, at least 3 bytes; the frame type is window byte 2 and the frame is
    the rest of the window. Once the record is found no read leaves it.
   */
  function Parse(buf: Adv, rev: Revision): (r: Fetch<Option<Payload>>)
    ensures r.PastEnd? <==> FindEddystoneServiceData(buf, rev).PastEnd?
    ensures r.PastEnd? ==> rev == AsWritten && r.index == |buf|
    ensures var f := FindEddystoneServiceData(buf, rev);
      r.Got? && r.value.Some? ==>
        && f.Got? && f.value.Some? && f.value.value.length >= 3
        && var w := f.value.value;
        && r.value == ParseFrame(buf[w.offset + 2], buf[w.offset + 3..w.End()])
    ensures var f := FindEddystoneServiceData(buf, rev);
      f.Got? ==> r == Got(
        if f.value.Some? && f.value.value.length >= 3
        then ParseFrame(buf[f.value.value.offset + 2], buf[f.value.value.offset + 3..f.value.value.End()])
        else None)
  {
    var found :- FindEddystoneServiceData(buf, rev);
    if found.None? then Got(None)
    else
      var w := found.value;
      if w.length < 3 then Got(None)
      else Got(ParseFrame(buf[w.offset + 2], buf[w.offset + 3..w.End()]))
  }

  // ---------------------------------------------------------------------
  // Encoding
  // ---------------------------------------------------------------------

  /** An advertisement holding one Eddystone record with this frame type and frame. */
  function Packet(frameType: byte, frame: seq<byte>): (p: Adv)
    requires |frame| <= 250
    ensures |p| == |frame| + 5 && p[0] as int == |p| - 1
  {
    [|frame| + 4, ServiceData, ServiceUuidLow, ServiceUuidHigh, frameType] + frame
  }

  /** Whatever the frame, `parse` finds the record and hands the frame decoder exactly its bytes. */
  lemma PacketDecodes(frameType: byte, frame: seq<byte>, rev: Revision)
    requires |frame| <= 250
    ensures CanParse(Packet(frameType, frame), rev) == Got(true)
    ensures Parse(Packet(frameType, frame), rev) == Got(ParseFrame(frameType, frame))
  {
    var p := Packet(frameType, frame);
    ScanStep(p, 0, EddystoneService, rev);
    assert p[5..|p|] == frame;
  }

  /** The UID frame a beacon sends. */
  function UidFrame(d: EddystoneUidData): (f: seq<byte>)
    requires EddystoneUid(d).WellFormed()
    ensures |f| == UidLength
  {
    [FromInt8(d.txPower)] + d.namespaceId + d.instanceId
  }

  lemma UidRoundTrip(d: EddystoneUidData)
    requires EddystoneUid(d).WellFormed()
    ensures ParseUid(UidFrame(d)) == Some(d)
  {
    var f := UidFrame(d);
    assert f[1..11] == d.namespaceId;
    assert f[11..17] == d.instanceId;
  }

  /** The URL frame a beacon sends: TX power, scheme code, then the encoded bytes. */
  function UrlFrame(txPower: int8, scheme: byte, body: seq<byte>): seq<byte>
  {
    [FromInt8(txPower), scheme] + body
  }

  lemma UrlRoundTrip(txPower: int8, scheme: byte, body: seq<byte>)
    requires scheme <= 0x03
    ensures ParseUrl(UrlFrame(txPower, scheme, body)) == Some(EddystoneUrlData(DecodeUrlScheme(scheme) + Expand(body), txPower))
  {
    assert UrlFrame(txPower, scheme, body)[2..] == body;
  }

  /** The TLM frame a beacon sends; `tenths` is the time since boot in tenths of a second. */
  function TlmFrame(battery: uint16, temperatureRaw: int16, advCount: uint32, tenths: uint32): (f: seq<byte>)
    ensures |f| == TlmLength
  {
    [0x00] + Split16(battery) + Split16(FromInt16(temperatureRaw)) + Split32(advCount) + Split32(tenths)
  }

  lemma TlmRoundTrip(battery: uint16, temperatureRaw: int16, advCount: uint32, tenths: uint32)
    ensures ParseTlm(TlmFrame(battery, temperatureRaw, advCount, tenths))
         == Some(EddystoneTlmData(battery, temperatureRaw, advCount, tenths / 10))
  {
    var f := TlmFrame(battery, temperatureRaw, advCount, tenths);
    assert f[5..9] == Split32(advCount);
    assert f[9..13] == Split32(tenths);
    BE32Split32(advCount);
    BE32Split32(tenths);
  }

  /**
    As written, a Service Data record of `ad_len == 2` that ends the buffer
    makes the Eddystone scan read the UUID's high byte at index `len`.
   */
  lemma UuidReadPastBuffer()
    ensures Parse([0x02, 0x16, 0xAA], AsWritten) == PastEnd(3)
    ensures Parse([0x02, 0x16, 0xAA], Corrected) == Got(None)
  {
  }
}
