/**
  The AltBeacon layout inside Manufacturer Specific Data of Radius Networks
  (company ID 0x0118, wire order `18 01`): the beacon code `BE AC`, a 16-byte
  beacon ID, a signed reference RSSI, a reserved byte, then a big-endian
  major and a big-endian minor.
 */
module AltBeaconParser {
  import opened Bytes
  import opened Reads
  import opened Scanner
  import opened Beacon

  const RadiusCompanyLow: byte := 0x18
  const RadiusCompanyHigh: byte := 0x01
  const BeaconCode: seq<byte> := [0xBE, 0xAC]
  /** Beacon code (2) + ID (16) + reference RSSI (1) + reserved (1) + major (2) + minor (2). */
  const DataLength: nat := 24

  /** `findRadiusManufacturerData`: the scan for Manufacturer Specific Data starting `18 01`. */
  function FindRadiusManufacturerData(buf: Adv, rev: Revision): (r: Fetch<Option<Window>>)
    ensures r == FindManufacturerData(buf, 0x0118, rev)
  {
    CompanyBytesIsCompany(buf, 0, RadiusCompanyLow, RadiusCompanyHigh, rev);
    ScanFrom(buf, 0, CompanyBytes(RadiusCompanyLow, RadiusCompanyHigh), rev)
  }

  /** `canParse` on what the scan returned. */
  function CanParseFound(buf: seq<byte>, f: Fetch<Option<Window>>, rev: Revision): (r: Fetch<bool>)
    requires Handed(buf, f, rev)
    ensures r.PastEnd? ==> rev == AsWritten && r.index == |buf|
    ensures r.PastEnd? <==> f.PastEnd? || (f.Got? && f.value.Some? && f.value.value.length >= 2 && buf[f.value.value.offset] == BeaconCode[0] && f.value.value.offset + 1 == |buf|)
    ensures r == Got(true) <==> FoundWith(buf, f, 2, BeaconCode)
  {
    var found :- f;
    match found
    case None => Got(false)
    case Some(w) =>
      if w.length < 2 then Got(false)
      else if buf[w.offset] != BeaconCode[0] then Got(false)
      else
        var b1 :- At(buf, w.offset + 1);
        Got(b1 == BeaconCode[1])
  }

  /**
    `canParse`: a Radius record whose window has at least two bytes, the
    first two being `BE AC`. The second byte is read only when the first
    matches.
   */
  function CanParse(buf: Adv, rev: Revision): (r: Fetch<bool>)
    ensures r.PastEnd? ==> rev == AsWritten && r.index == |buf|
    ensures var f := FindManufacturerData(buf, 0x0118, rev);
      r.PastEnd? <==> f.PastEnd? || (f.Got? && f.value.Some? && f.value.value.length >= 2 && buf[f.value.value.offset] == BeaconCode[0] && f.value.value.offset + 1 == |buf|)
    ensures r == Got(true) <==> FoundWith(buf, FindManufacturerData(buf, 0x0118, rev), 2, BeaconCode)
  {
    CanParseFound(buf, FindRadiusManufacturerData(buf, rev), rev)
  }

  /** The 24 bytes of the window at `off` hold the beacon code and the fields of `d`. */
  predicate Layout(buf: seq<byte>, off: nat, d: AltBeaconData) {
    && off + DataLength <= |buf|
    && buf[off..off + 2] == BeaconCode
    && d.id == buf[off + 2..off + 18]
    && d.txPower == ToInt8(buf[off + 18])
    && d.mfgReserved == buf[off + 19]
    && d.major == BE16(buf[off + 20], buf[off + 21])
    && d.minor == BE16(buf[off + 22], buf[off + 23])
  }

  /** `parse` on what the scan returned. */
  function ParseFound(buf: seq<byte>, f: Fetch<Option<Window>>, rev: Revision): (r: Fetch<Option<AltBeaconData>>)
    requires Handed(buf, f, rev)
    ensures r.PastEnd? ==> rev == AsWritten && r.index == |buf|
    ensures r.PastEnd? <==> f.PastEnd? || (FoundWith(buf, f, DataLength, BeaconCode) && f.value.value.offset + 23 == |buf|)
    ensures r == Got(None) <==> f.Got? && !FoundWith(buf, f, DataLength, BeaconCode)
    ensures r.Got? && r.value.Some? ==>
      FoundWith(buf, f, DataLength, BeaconCode) && Layout(buf, f.value.value.offset, r.value.value)
  {
    var found :- f;
    if found.None? then Got(None)
    else
      var w := found.value;
      if w.length < DataLength || buf[w.offset] != BeaconCode[0] || buf[w.offset + 1] != BeaconCode[1] then Got(None)
      else
        var id := buf[w.offset + 2..w.offset + 18];
        var rssi := ToInt8(buf[w.offset + 18]);
        var reserved := buf[w.offset + 19];
        var major := BE16(buf[w.offset + 20], buf[w.offset + 21]);
        var minorLow :- At(buf, w.offset + 23);
        Got(Some(AltBeaconData(id, major, BE16(buf[w.offset + 22], minorLow), rssi, reserved)))
  }

  /**
    `parse`: the Radius record's window must hold at least 24 bytes starting
    `BE AC`; then the ID is bytes 2..17 copied verbatim, the reference RSSI
    (kept as the TX power) byte 18 read signed, the reserved byte 19, and the
    major bytes 20-21 and minor bytes 22-23 read big-endian.
   */
  function Parse(buf: Adv, rev: Revision): (r: Fetch<Option<AltBeaconData>>)
    ensures r.PastEnd? ==> rev == AsWritten && r.index == |buf|
    ensures var f := FindManufacturerData(buf, 0x0118, rev);
      && (r.PastEnd? <==> f.PastEnd? || (FoundWith(buf, f, DataLength, BeaconCode) && f.value.value.offset + 23 == |buf|))
      && (r == Got(None) <==> f.Got? && !FoundWith(buf, f, DataLength, BeaconCode))
      && (r.Got? && r.value.Some? ==>
            FoundWith(buf, f, DataLength, BeaconCode) && Layout(buf, f.value.value.offset, r.value.value)
            && AltBeacon(r.value.value).WellFormed())
  {
    ParseFound(buf, FindRadiusManufacturerData(buf, rev), rev)
  }

  /** `parse` succeeds only where `canParse` holds. */
  lemma ParseImpliesCanParse(buf: Adv, rev: Revision)
    requires Parse(buf, rev).Got? && Parse(buf, rev).value.Some?
    ensures CanParse(buf, rev) == Got(true)
  {
  }

  /** An advertisement holding one AltBeacon record with these fields, as a beacon sends it. */
  function Packet(id: seq<byte>, major: uint16, minor: uint16, rssi: int8, reserved: byte): (p: Adv)
    requires |id| == 16
    ensures |p| == 28 && p[0] as int == |p| - 1
  {
    [0x1B, ManufacturerSpecificData, RadiusCompanyLow, RadiusCompanyHigh] + BeaconCode + id
      + [FromInt8(rssi), reserved] + Split16(major) + Split16(minor)
  }

  /** Decoding a beacon's packet gives back its fields. */
  lemma PacketRoundTrip(id: seq<byte>, major: uint16, minor: uint16, rssi: int8, reserved: byte, rev: Revision)
    requires |id| == 16
    ensures var p := Packet(id, major, minor, rssi, reserved);
      && CanParse(p, rev) == Got(true)
      && Parse(p, rev) == Got(Some(AltBeaconData(id, major, minor, rssi, reserved)))
  {
    var p := Packet(id, major, minor, rssi, reserved);
    ScanStep(p, 0, CompanyBytes(RadiusCompanyLow, RadiusCompanyHigh), rev);
    assert p[6..22] == id;
    assert Layout(p, 4, Parse(p, rev).value.value);
  }

  /**
    A record of `ad_len == 26` that ends the buffer: the code's window claims
    24 bytes where 23 follow the company ID, so the minor's low byte is read
    at index `len`.
   */
  lemma MinorReadPastBuffer(id: seq<byte>, rssi: int8, reserved: byte, major: uint16, minorHigh: byte)
    requires |id| == 16
    ensures var p: Adv := [0x1A, ManufacturerSpecificData, RadiusCompanyLow, RadiusCompanyHigh] + BeaconCode + id
                          + [FromInt8(rssi), reserved] + Split16(major) + [minorHigh];
      && |p| == 27
      && Parse(p, AsWritten) == PastEnd(27)
      && Parse(p, Corrected) == Got(None)
  {
    var p: Adv := [0x1A, ManufacturerSpecificData, RadiusCompanyLow, RadiusCompanyHigh] + BeaconCode + id
                  + [FromInt8(rssi), reserved] + Split16(major) + [minorHigh];
    ScanStep(p, 0, CompanyBytes(RadiusCompanyLow, RadiusCompanyHigh), AsWritten);
    ScanStep(p, 0, CompanyBytes(RadiusCompanyLow, RadiusCompanyHigh), Corrected);
  }

  /**
    A record of `ad_len == 4` that ends the buffer with `BE`: the code's
    window claims two bytes where one exists, so `canParse` reads index `len`.
   */
  lemma CodeReadPastBuffer(p: Adv)
    requires p == [0x04, 0xFF, 0x18, 0x01, 0xBE]
    ensures CanParse(p, AsWritten) == PastEnd(5)
    ensures CanParse(p, Corrected) == Got(false)
  {
    ScanStep(p, 0, CompanyBytes(RadiusCompanyLow, RadiusCompanyHigh), AsWritten);
    ScanStep(p, 0, CompanyBytes(RadiusCompanyLow, RadiusCompanyHigh), Corrected);
  }
}
