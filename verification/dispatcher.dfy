/**
  `BLEBeaconParser::parse`: reset the result, refuse a missing or empty
  buffer, then offer the advertisement to the iBeacon, AltBeacon and
  Eddystone decoders in that order. Each decoder is consulted through its
  `canParse`; only when that holds is its `parse` run, and the first `parse`
  that succeeds decides the result.
 */
module BLEBeaconParser {
  import opened Bytes
  import opened Reads
  import opened Scanner
  import opened Beacon
  import opened UuidText
  import IBeaconParser
  import AltBeaconParser
  import EddystoneParser

  // ---------------------------------------------------------------------
  // One decoder's turn
  // ---------------------------------------------------------------------

  /** The iBeacon turn: `canParse`, and if it holds, `parse`. */
  function TryIBeacon(buf: Adv, rev: Revision): (r: Fetch<Option<Payload>>)
    ensures r.PastEnd? ==> rev == AsWritten && r.index == |buf|
    ensures r.Got? && r.value.Some? ==> r.value.value.IBeacon? && r.value.value.WellFormed()
    ensures forall d :: r == Got(Some(IBeacon(d))) <==> IBeaconParser.Parse(buf, rev) == Got(Some(d))
    ensures r.PastEnd? <==>
      || IBeaconParser.CanParse(buf, rev).PastEnd?
      || (IBeaconParser.CanParse(buf, rev) == Got(true) && IBeaconParser.Parse(buf, rev).PastEnd?)
  {
    var ok :- IBeaconParser.CanParse(buf, rev);
    if !ok then Got(None)
    else
      var d :- IBeaconParser.Parse(buf, rev);
      if d.None? then Got(None) else Got(Some(IBeacon(d.value)))
  }

  /** The AltBeacon turn: `canParse`, and if it holds, `parse`. */
  function TryAltBeacon(buf: Adv, rev: Revision): (r: Fetch<Option<Payload>>)
    ensures r.PastEnd? ==> rev == AsWritten && r.index == |buf|
    ensures r.Got? && r.value.Some? ==> r.value.value.AltBeacon? && r.value.value.WellFormed()
    ensures forall d :: r == Got(Some(AltBeacon(d))) <==> AltBeaconParser.Parse(buf, rev) == Got(Some(d))
    ensures r.PastEnd? <==>
      || AltBeaconParser.CanParse(buf, rev).PastEnd?
      || (AltBeaconParser.CanParse(buf, rev) == Got(true) && AltBeaconParser.Parse(buf, rev).PastEnd?)
  {
    var ok :- AltBeaconParser.CanParse(buf, rev);
    if !ok then Got(None)
    else
      var d :- AltBeaconParser.Parse(buf, rev);
      if d.None? then Got(None) else Got(Some(AltBeacon(d.value)))
  }

  /**
    The Eddystone turn: `canParse`, and if it holds, `parse`. Both run the
    same search, so `parse` cannot fault once `canParse` has not.
   */
  function TryEddystone(buf: Adv, rev: Revision): (r: Fetch<Option<Payload>>)
    ensures r.PastEnd? ==> rev == AsWritten && r.index == |buf|
    ensures r.Got? && r.value.Some? ==>
      && r.value.value.WellFormed()
      && (r.value.value.EddystoneUid? || r.value.value.EddystoneUrl? || r.value.value.EddystoneTlm?)
    ensures r == EddystoneParser.Parse(buf, rev)
  {
    var ok :- EddystoneParser.CanParse(buf, rev);
    if !ok then Got(None) else EddystoneParser.Parse(buf, rev)
  }

  // ---------------------------------------------------------------------
  // parse
  // ---------------------------------------------------------------------

  /**
    `parse(data, len, result)`. `data` is `None` for a null pointer, and the
    result is the returned flag with the `BeaconData` the call leaves behind.
    A reading past the buffer, which only the code as written makes, is a
    `PastEnd` at index `len`.
   */
  function Parse(data: Option<Adv>, rev: Revision): (r: Fetch<(bool, BeaconData)>)
    ensures data.None? || |data.value| == 0 ==> r == Got((false, Init()))
    ensures r.PastEnd? ==> rev == AsWritten && data.Some? && r.index == |data.value|
    ensures r.Got? ==> r.value.0 == r.value.1.valid
    ensures r.Got? && !r.value.0 ==> r.value.1 == Init()
    ensures r.Got? && r.value.0 ==> r.value.1.Type() != TypeUnknown && r.value.1.payload.WellFormed()
    ensures data.Some? && |data.value| > 0 ==>
      var buf := data.value;
      (r.PastEnd? <==>
        || TryIBeacon(buf, rev).PastEnd?
        || (TryIBeacon(buf, rev) == Got(None) &&
              (|| TryAltBeacon(buf, rev).PastEnd?
               || (TryAltBeacon(buf, rev) == Got(None) && TryEddystone(buf, rev).PastEnd?))))
  {
    if data.None? || |data.value| == 0 then Got((false, Init()))
    else
      var buf := data.value;
      var ib :- TryIBeacon(buf, rev);
      if ib.Some? then Got(Commit(Init(), ib))
      else
        var alt :- TryAltBeacon(buf, rev);
        if alt.Some? then Got(Commit(Init(), alt))
        else
          var ed :- TryEddystone(buf, rev);
          if ed.Some? then Got(Commit(Init(), ed))
          else Got((false, Init()))
  }

  // ---------------------------------------------------------------------
  // Order of the decoders
  // ---------------------------------------------------------------------

  /** An iBeacon reading is what the iBeacon decoder produced. */
  lemma IBeaconReadingFromIBeacon(buf: Adv, rev: Revision, d: IBeaconData)
    requires Parse(Some(buf), rev).Got? && Parse(Some(buf), rev).value.1.payload == IBeacon(d)
    ensures Parse(Some(buf), rev).value.0
    ensures IBeaconParser.Parse(buf, rev) == Got(Some(d))
  {
    assert TryIBeacon(buf, rev) == Got(Some(IBeacon(d)));
  }

  /** An AltBeacon reading is what the AltBeacon decoder produced, after the iBeacon turn declined. */
  lemma AltBeaconReadingFromAltBeacon(buf: Adv, rev: Revision, d: AltBeaconData)
    requires Parse(Some(buf), rev).Got? && Parse(Some(buf), rev).value.1.payload == AltBeacon(d)
    ensures Parse(Some(buf), rev).value.0
    ensures TryIBeacon(buf, rev) == Got(None)
    ensures AltBeaconParser.Parse(buf, rev) == Got(Some(d))
  {
    assert TryAltBeacon(buf, rev) == Got(Some(AltBeacon(d)));
  }

  /** An Eddystone reading is what the Eddystone decoder produced, after both other turns declined. */
  lemma EddystoneReadingFromEddystone(buf: Adv, rev: Revision)
    requires Parse(Some(buf), rev).Got?
    requires Parse(Some(buf), rev).value.1.Type() in {TypeEddystoneUid, TypeEddystoneUrl, TypeEddystoneTlm}
    ensures Parse(Some(buf), rev).value.0
    ensures TryIBeacon(buf, rev) == Got(None) && TryAltBeacon(buf, rev) == Got(None)
    ensures EddystoneParser.Parse(buf, rev) == Got(Some(Parse(Some(buf), rev).value.1.payload))
  {
  }

  /** An iBeacon reading wins whatever else the advertisement holds. */
  lemma IBeaconWins(buf: Adv, rev: Revision, d: IBeaconData)
    requires |buf| > 0
    requires IBeaconParser.Parse(buf, rev) == Got(Some(d))
    ensures Parse(Some(buf), rev) == Got((true, BeaconData(IBeacon(d), true)))
  {
    assert TryIBeacon(buf, rev) == Got(Some(IBeacon(d)));
  }

  /** AltBeacon is read when the iBeacon turn declines without a fault. */
  lemma AltBeaconSecond(buf: Adv, rev: Revision, d: AltBeaconData)
    requires |buf| > 0
    requires TryIBeacon(buf, rev) == Got(None)
    requires AltBeaconParser.Parse(buf, rev) == Got(Some(d))
    ensures Parse(Some(buf), rev) == Got((true, BeaconData(AltBeacon(d), true)))
  {
    assert TryAltBeacon(buf, rev) == Got(Some(AltBeacon(d)));
  }

  /** Eddystone is read only when both earlier turns decline without a fault. */
  lemma EddystoneLast(buf: Adv, rev: Revision, p: Payload)
    requires |buf| > 0
    requires TryIBeacon(buf, rev) == Got(None) && TryAltBeacon(buf, rev) == Got(None)
    requires EddystoneParser.Parse(buf, rev) == Got(Some(p))
    ensures Parse(Some(buf), rev) == Got((true, BeaconData(p, true)))
  {
  }

  /** When no decoder accepts, the call reports failure and an unknown, invalid result. */
  lemma NothingAccepted(buf: Adv, rev: Revision)
    requires TryIBeacon(buf, rev) == Got(None) && TryAltBeacon(buf, rev) == Got(None)
    requires EddystoneParser.Parse(buf, rev) == Got(None)
    ensures Parse(Some(buf), rev) == Got((false, Init()))
  {
  }

  /** With the corrected windows the call never reads past the buffer. */
  lemma CorrectedNeverFaults(data: Option<Adv>)
    ensures Parse(data, Corrected).Got?
  {
  }

  // ---------------------------------------------------------------------
  // Whole advertisements
  // ---------------------------------------------------------------------

  /** A beacon's iBeacon advertisement reads back as its fields. */
  lemma IBeaconPacketReads(uuid: seq<byte>, major: uint16, minor: uint16, txPower: int8, rev: Revision)
    requires |uuid| == 16
    ensures Parse(Some(IBeaconParser.Packet(uuid, major, minor, txPower)), rev)
         == Got((true, BeaconData(IBeacon(IBeaconData(UuidToString(uuid), major, minor, txPower)), true)))
  {
    IBeaconParser.PacketRoundTrip(uuid, major, minor, txPower, rev);
    IBeaconWins(IBeaconParser.Packet(uuid, major, minor, txPower), rev, IBeaconData(UuidToString(uuid), major, minor, txPower));
  }

  /** A beacon's AltBeacon advertisement reads back as its fields; the Apple search passes it by. */
  lemma AltBeaconPacketReads(id: seq<byte>, major: uint16, minor: uint16, rssi: int8, reserved: byte, rev: Revision)
    requires |id| == 16
    ensures Parse(Some(AltBeaconParser.Packet(id, major, minor, rssi, reserved)), rev)
         == Got((true, BeaconData(AltBeacon(AltBeaconData(id, major, minor, rssi, reserved)), true)))
  {
    var p := AltBeaconParser.Packet(id, major, minor, rssi, reserved);
    AltBeaconParser.PacketRoundTrip(id, major, minor, rssi, reserved, rev);
    assert TryIBeacon(p, rev) == Got(None) by {
      CompanyBytesIsCompany(p, 0, IBeaconParser.AppleCompanyLow, IBeaconParser.AppleCompanyHigh, rev);
      ScanStep(p, 0, CompanyBytes(IBeaconParser.AppleCompanyLow, IBeaconParser.AppleCompanyHigh), rev);
    }
    AltBeaconSecond(p, rev, AltBeaconData(id, major, minor, rssi, reserved));
  }

  /** No manufacturer record means both manufacturer turns decline. */
  lemma NoManufacturerRecord(buf: Adv, rev: Revision)
    requires ScanFrom(buf, 0, Company(0x004C), rev) == Got(None)
    requires ScanFrom(buf, 0, Company(0x0118), rev) == Got(None)
    ensures TryIBeacon(buf, rev) == Got(None) && TryAltBeacon(buf, rev) == Got(None)
  {
  }

  /** A beacon's Eddystone advertisement reads back as its frame decodes. */
  lemma EddystonePacketReads(frameType: byte, frame: seq<byte>, rev: Revision)
    requires |frame| <= 250
    ensures var p := EddystoneParser.Packet(frameType, frame);
      var d := EddystoneParser.ParseFrame(frameType, frame);
      Parse(Some(p), rev) == if d.Some? then Got((true, BeaconData(d.value, true))) else Got((false, Init()))
  {
    var p := EddystoneParser.Packet(frameType, frame);
    EddystoneParser.PacketDecodes(frameType, frame, rev);
    assert TryIBeacon(p, rev) == Got(None) && TryAltBeacon(p, rev) == Got(None) by {
      ScanStep(p, 0, Company(0x004C), rev);
      ScanStep(p, 0, Company(0x0118), rev);
      ScanStop(p, |p|, Company(0x004C), rev);
      ScanStop(p, |p|, Company(0x0118), rev);
      NoManufacturerRecord(p, rev);
    }
  }

  /** An Eddystone-UID advertisement reads back as its fields. */
  lemma UidPacketReads(d: EddystoneUidData, rev: Revision)
    requires EddystoneUid(d).WellFormed()
    ensures Parse(Some(EddystoneParser.Packet(EddystoneParser.FrameUid, EddystoneParser.UidFrame(d))), rev)
         == Got((true, BeaconData(EddystoneUid(d), true)))
  {
    EddystonePacketReads(EddystoneParser.FrameUid, EddystoneParser.UidFrame(d), rev);
    EddystoneParser.UidRoundTrip(d);
  }

  /** An Eddystone-URL advertisement reads back as its scheme followed by the expansion of its bytes. */
  lemma UrlPacketReads(txPower: int8, scheme: byte, body: seq<byte>, rev: Revision)
    requires scheme <= 0x03 && |body| <= 248
    ensures Parse(Some(EddystoneParser.Packet(EddystoneParser.FrameUrl, EddystoneParser.UrlFrame(txPower, scheme, body))), rev)
         == Got((true, BeaconData(EddystoneUrl(EddystoneUrlData(EddystoneParser.DecodeUrlScheme(scheme) + EddystoneParser.Expand(body), txPower)), true)))
  {
    EddystonePacketReads(EddystoneParser.FrameUrl, EddystoneParser.UrlFrame(txPower, scheme, body), rev);
    EddystoneParser.UrlRoundTrip(txPower, scheme, body);
  }

  /** An Eddystone-TLM advertisement reads back as its fields, the uptime in whole seconds. */
  lemma TlmPacketReads(battery: uint16, temperatureRaw: int16, advCount: uint32, tenths: uint32, rev: Revision)
    ensures Parse(Some(EddystoneParser.Packet(EddystoneParser.FrameTlm, EddystoneParser.TlmFrame(battery, temperatureRaw, advCount, tenths))), rev)
         == Got((true, BeaconData(EddystoneTlm(EddystoneTlmData(battery, temperatureRaw, advCount, tenths / 10)), true)))
  {
    EddystonePacketReads(EddystoneParser.FrameTlm, EddystoneParser.TlmFrame(battery, temperatureRaw, advCount, tenths), rev);
    EddystoneParser.TlmRoundTrip(battery, temperatureRaw, advCount, tenths);
  }

  // ---------------------------------------------------------------------
  // Concrete advertisements
  // ---------------------------------------------------------------------

  /** Null data and empty data are refused before any decoder runs. */
  lemma RefusesNullAndEmpty(rev: Revision)
    ensures Parse(None, rev) == Got((false, Init()))
    ensures Parse(Some([]), rev) == Got((false, Init()))
  {
  }

  /** A record of type 0x01 alone matches no decoder. */
  lemma UnknownAdvertisement(rev: Revision)
    ensures Parse(Some([0x05, 0x01, 0x02, 0x03, 0x04, 0x05]), rev) == Got((false, Init()))
  {
    var buf: Adv := [0x05, 0x01, 0x02, 0x03, 0x04, 0x05];
    assert ScanFrom(buf, 0, Company(0x004C), rev) == Got(None) by {
      ScanStep(buf, 0, Company(0x004C), rev);
      ScanStop(buf, 6, Company(0x004C), rev);
    }
    assert ScanFrom(buf, 0, Company(0x0118), rev) == Got(None) by {
      ScanStep(buf, 0, Company(0x0118), rev);
      ScanStop(buf, 6, Company(0x0118), rev);
    }
    assert ScanFrom(buf, 0, EddystoneService, rev) == Got(None) by {
      ScanStep(buf, 0, EddystoneService, rev);
      ScanStop(buf, 6, EddystoneService, rev);
    }
    NoManufacturerRecord(buf, rev);
    NothingAccepted(buf, rev);
  }

  /**
    As written, a truncated Apple record that ends the buffer makes the whole
    call read index `len`; with the corrected guard it is simply declined.
   */
  lemma TruncatedAppleRecordFaults()
    ensures Parse(Some([0x02, 0xFF, 0x4C]), AsWritten) == PastEnd(3)
    ensures Parse(Some([0x02, 0xFF, 0x4C]), Corrected) == Got((false, Init()))
  {
    KeyReadPastBuffer();
    CompanyBytesIsCompany([0x02, 0xFF, 0x4C], 0, IBeaconParser.AppleCompanyLow, IBeaconParser.AppleCompanyHigh, Corrected);
    CompanyBytesIsCompany([0x02, 0xFF, 0x4C], 0, AltBeaconParser.RadiusCompanyLow, AltBeaconParser.RadiusCompanyHigh, Corrected);
  }
}
