/**
  Apple's iBeacon layout inside Manufacturer Specific Data: company ID 0x004C
  (wire order `4C 00`), then the prefix `02 15`, a 16-byte proximity UUID,
  a big-endian major, a big-endian minor and a signed measured TX power.
 */
module IBeaconParser {
  import opened Bytes
  import opened Reads
  import opened Hex
  import opened UuidText
  import opened Scanner
  import opened Beacon

  const AppleCompanyLow: byte := 0x4C
  const AppleCompanyHigh: byte := 0x00
  const Prefix: seq<byte> := [0x02, 0x15]
  /** Prefix (2) + UUID (16) + major (2) + minor (2) + TX power (1). */
  const DataLength: nat := 23

  // ---------------------------------------------------------------------
  // findAppleManufacturerData, canParse, parse
  // ---------------------------------------------------------------------

  /** `findAppleManufacturerData`: the scan for Manufacturer Specific Data starting `4C 00`. */
  function FindAppleManufacturerData(buf: Adv, rev: Revision): (r: Fetch<Option<Window>>)
    ensures r == FindManufacturerData(buf, 0x004C, rev)
  {
    CompanyBytesIsCompany(buf, 0, AppleCompanyLow, AppleCompanyHigh, rev);
    ScanFrom(buf, 0, CompanyBytes(AppleCompanyLow, AppleCompanyHigh), rev)
  }

  /** `canParse` on what the scan returned. */
  function CanParseFound(buf: seq<byte>, f: Fetch<Option<Window>>, rev: Revision): (r: Fetch<bool>)
    requires Handed(buf, f, rev)
    ensures r.PastEnd? ==> rev == AsWritten && r.index == |buf|
    ensures r.PastEnd? <==> f.PastEnd? || (f.Got? && f.value.Some? && f.value.value.length >= 2 && buf[f.value.value.offset] == Prefix[0] && f.value.value.offset + 1 == |buf|)
    ensures r == Got(true) <==> FoundWith(buf, f, 2, Prefix)
  {
    var found :- f;
    match found
    case None => Got(false)
    case Some(w) =>
      if w.length < 2 then Got(false)
      else if buf[w.offset] != Prefix[0] then Got(false)
      else
        var b1 :- At(buf, w.offset + 1);
        Got(b1 == Prefix[1])
  }

  /**
    `canParse`: an Apple record whose window has at least two bytes, the
    first two being `02 15`. The second byte is read only when the first
    matches.
   */
  function CanParse(buf: Adv, rev: Revision): (r: Fetch<bool>)
    ensures r.PastEnd? ==> rev == AsWritten && r.index == |buf|
    ensures var f := FindManufacturerData(buf, 0x004C, rev);
      r.PastEnd? <==> f.PastEnd? || (f.Got? && f.value.Some? && f.value.value.length >= 2 && buf[f.value.value.offset] == Prefix[0] && f.value.value.offset + 1 == |buf|)
    ensures r == Got(true) <==> FoundWith(buf, FindManufacturerData(buf, 0x004C, rev), 2, Prefix)
  {
    CanParseFound(buf, FindAppleManufacturerData(buf, rev), rev)
  }

  /** The 23 bytes of the window at `off` hold the prefix and the fields of `d`. */
  predicate Layout(buf: seq<byte>, off: nat, d: IBeaconData) {
    && off + DataLength <= |buf|
    && buf[off..off + 2] == Prefix
    && d.uuid == UuidToString(buf[off + 2..off + 18])
    && d.major == BE16(buf[off + 18], buf[off + 19])
    && d.minor == BE16(buf[off + 20], buf[off + 21])
    && d.txPower == ToInt8(buf[off + 22])
  }

  /** `parse` on what the scan returned. */
  function ParseFound(buf: seq<byte>, f: Fetch<Option<Window>>, rev: Revision): (r: Fetch<Option<IBeaconData>>)
    requires Handed(buf, f, rev)
    ensures r.PastEnd? ==> rev == AsWritten && r.index == |buf|
    ensures r.PastEnd? <==> f.PastEnd? || (FoundWith(buf, f, DataLength, Prefix) && f.value.value.offset + 22 == |buf|)
    ensures r == Got(None) <==> f.Got? && !FoundWith(buf, f, DataLength, Prefix)
    ensures r.Got? && r.value.Some? ==> FoundWith(buf, f, DataLength, Prefix) && Layout(buf, f.value.value.offset, r.value.value)
  {
    var found :- f;
    if found.None? then Got(None)
    else
      var w := found.value;
      if w.length < DataLength || buf[w.offset] != Prefix[0] || buf[w.offset + 1] != Prefix[1] then Got(None)
      else
        var uuid := buf[w.offset + 2..w.offset + 18];
        var major := BE16(buf[w.offset + 18], buf[w.offset + 19]);
        var minor := BE16(buf[w.offset + 20], buf[w.offset + 21]);
        var tx :- At(buf, w.offset + 22);
        Got(Some(IBeaconData(UuidToString(uuid), major, minor, ToInt8(tx))))
  }

  /**
    `parse`: the Apple record's window must hold at least 23 bytes starting
    `02 15`; then the UUID is bytes 2..17, the major bytes 18-19 and the minor
    bytes 20-21 read big-endian, and the TX power byte 22 read signed. It
    fails, reading nothing more, when there is no such record or the window
    is shorter or lacks the prefix.
   */
  function Parse(buf: Adv, rev: Revision): (r: Fetch<Option<IBeaconData>>)
    ensures r.PastEnd? ==> rev == AsWritten && r.index == |buf|
    ensures var f := FindManufacturerData(buf, 0x004C, rev);
      && (r.PastEnd? <==> f.PastEnd? || (FoundWith(buf, f, DataLength, Prefix) && f.value.value.offset + 22 == |buf|))
      && (r == Got(None) <==> f.Got? && !FoundWith(buf, f, DataLength, Prefix))
      && (r.Got? && r.value.Some? ==>
            FoundWith(buf, f, DataLength, Prefix) && Layout(buf, f.value.value.offset, r.value.value)
            && IBeacon(r.value.value).WellFormed())
  {
    ParseFound(buf, FindAppleManufacturerData(buf, rev), rev)
  }

  /** `parse` succeeds only where `canParse` holds, so the dispatcher's guard never hides a reading. */
  lemma ParseImpliesCanParse(buf: Adv, rev: Revision)
    requires Parse(buf, rev).Got? && Parse(buf, rev).value.Some?
    ensures CanParse(buf, rev) == Got(true)
  {
  }

  // ---------------------------------------------------------------------
  // Encoding
  // ---------------------------------------------------------------------

  /** An advertisement holding one iBeacon record with these fields, as a beacon sends it. */
  function Packet(uuid: seq<byte>, major: uint16, minor: uint16, txPower: int8): (p: Adv)
    requires |uuid| == 16
    ensures |p| == 27 && p[0] as int == |p| - 1
  {
    [0x1A, ManufacturerSpecificData, AppleCompanyLow, AppleCompanyHigh] + Prefix + uuid
      + Split16(major) + Split16(minor) + [FromInt8(txPower)]
  }

  /** Decoding a beacon's packet gives back its fields, and the UUID text reads back as its bytes. */
  lemma PacketRoundTrip(uuid: seq<byte>, major: uint16, minor: uint16, txPower: int8, rev: Revision)
    requires |uuid| == 16
    ensures var p := Packet(uuid, major, minor, txPower);
      && CanParse(p, rev) == Got(true)
      && Parse(p, rev) == Got(Some(IBeaconData(UuidToString(uuid), major, minor, txPower)))
    ensures Hex.Parse(StripDashes(UuidToString(uuid))) == Some(uuid)
  {
    var p := Packet(uuid, major, minor, txPower);
    ScanStep(p, 0, CompanyBytes(AppleCompanyLow, AppleCompanyHigh), rev);
    assert p[6..22] == uuid;
    var w := FindAppleManufacturerData(p, rev).value.value;
    assert w.offset == 4;
    assert Layout(p, 4, Parse(p, rev).value.value);
    UuidTextRoundTrip(uuid);
  }

  /**
    A record of `ad_len == 25` that ends the buffer: the code's window claims
    23 bytes where 22 follow the company ID, so the TX power read lands on
    index `len`.
   */
  lemma TxPowerReadPastBuffer(uuid: seq<byte>, major: uint16, minor: uint16)
    requires |uuid| == 16
    ensures var p: Adv := [0x19, ManufacturerSpecificData, AppleCompanyLow, AppleCompanyHigh] + Prefix + uuid
                          + Split16(major) + Split16(minor);
      && |p| == 26
      && Parse(p, AsWritten) == PastEnd(26)
      && Parse(p, Corrected) == Got(None)
  {
    var p: Adv := [0x19, ManufacturerSpecificData, AppleCompanyLow, AppleCompanyHigh] + Prefix + uuid
                  + Split16(major) + Split16(minor);
    ScanStep(p, 0, CompanyBytes(AppleCompanyLow, AppleCompanyHigh), AsWritten);
    ScanStep(p, 0, CompanyBytes(AppleCompanyLow, AppleCompanyHigh), Corrected);
  }

  /**
    A record of `ad_len == 4` that ends the buffer with `02`: the code's
    window claims two bytes where one exists, so `canParse` reads index `len`.
   */
  lemma PrefixReadPastBuffer(p: Adv)
    requires p == [0x04, 0xFF, 0x4C, 0x00, 0x02]
    ensures CanParse(p, AsWritten) == PastEnd(5)
    ensures CanParse(p, Corrected) == Got(false)
  {
    ScanStep(p, 0, CompanyBytes(AppleCompanyLow, AppleCompanyHigh), AsWritten);
    ScanStep(p, 0, CompanyBytes(AppleCompanyLow, AppleCompanyHigh), Corrected);
  }
}
