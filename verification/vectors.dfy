/**
  The advertisements of the library's unit tests, each decoded through
  `BLEBeaconParser::parse` with both revisions of the scanner, and the
  reading each test expects.
 */
module Vectors {
  import opened Bytes
  import opened Reads
  import opened Scanner
  import opened Beacon
  import opened UuidText
  import IBeaconParser
  import AltBeaconParser
  import EddystoneParser
  import BLEBeaconParser

  const TestUuid: seq<byte> := [0x5F, 0x2D, 0xD8, 0x96, 0xB8, 0x86, 0x45, 0x49, 0xAE, 0x01, 0xE4, 0x1A, 0xCD, 0x7A, 0x35, 0x4A]

  /** The digit groups of the test UUID. */
  lemma TestUuidHead()
    ensures Hex.Render([0x5F, 0x2D, 0xD8, 0x96]) == "5F2DD896"
    ensures Hex.Render([0xB8, 0x86]) == "B886"
  {
  }

  lemma TestUuidMiddle()
    ensures Hex.Render([0x45, 0x49]) == "4549"
    ensures Hex.Render([0xAE, 0x01]) == "AE01"
  {
  }

  lemma TestUuidNode()
    ensures Hex.Render([0xE4, 0x1A, 0xCD, 0x7A, 0x35, 0x4A]) == "E41ACD7A354A"
  {
  }

  lemma TestUuidSlices()
    ensures TestUuid[..4] == [0x5F, 0x2D, 0xD8, 0x96] && TestUuid[4..6] == [0xB8, 0x86] && TestUuid[6..8] == [0x45, 0x49]
    ensures TestUuid[8..10] == [0xAE, 0x01] && TestUuid[10..] == [0xE4, 0x1A, 0xCD, 0x7A, 0x35, 0x4A]
  {
  }

  /** The proximity UUID of the iBeacon test prints as the test expects. */
  lemma TestUuidText()
    ensures UuidToString(TestUuid) == "5F2DD896-B886-4549-AE01-E41ACD7A354A"
  {
    var u := TestUuid;
    var g0, g1, g2, g3, g4 := Hex.Render(u[..4]), Hex.Render(u[4..6]), Hex.Render(u[6..8]), Hex.Render(u[8..10]), Hex.Render(u[10..]);
    assert UuidToString(u) == g0 + "-" + g1 + "-" + g2 + "-" + g3 + "-" + g4;
    assert g0 == "5F2DD896" && g1 == "B886" && g2 == "4549" && g3 == "AE01" && g4 == "E41ACD7A354A" by {
      TestUuidSlices();
      TestUuidHead();
      TestUuidMiddle();
      TestUuidNode();
    }
    Join(g0, g1, g2, g3, g4);
  }

  /** Dashes between the five groups. */
  lemma Join(g0: string, g1: string, g2: string, g3: string, g4: string)
    requires g0 == "5F2DD896" && g1 == "B886" && g2 == "4549" && g3 == "AE01" && g4 == "E41ACD7A354A"
    ensures g0 + "-" + g1 + "-" + g2 + "-" + g3 + "-" + g4 == "5F2DD896-B886-4549-AE01-E41ACD7A354A"
  {
  }

  /** The iBeacon test: UUID, major 1, minor 2 and TX power -59 dBm. */
  lemma IBeaconTest(rev: Revision)
    ensures var p: Adv := [0x1A, 0xFF, 0x4C, 0x00, 0x02, 0x15] + TestUuid + [0x00, 0x01, 0x00, 0x02, 0xC5];
      BLEBeaconParser.Parse(Some(p), rev)
        == Got((true, BeaconData(IBeacon(IBeaconData("5F2DD896-B886-4549-AE01-E41ACD7A354A", 1, 2, -59)), true)))
  {
    var p: Adv := [0x1A, 0xFF, 0x4C, 0x00, 0x02, 0x15] + TestUuid + [0x00, 0x01, 0x00, 0x02, 0xC5];
    assert p == IBeaconParser.Packet(TestUuid, 1, 2, -59);
    BLEBeaconParser.IBeaconPacketReads(TestUuid, 1, 2, -59, rev);
    TestUuidText();
  }

  /**
    The invalid iBeacon tests: a foreign company ID, a wrong prefix, and a
    five-byte record that does not fit its own length. None is read as any
    beacon.
   */
  lemma IBeaconWrongCompanyTest(rev: Revision)
    ensures var p: Adv := [0x1A, 0xFF, 0x00, 0x01, 0x02, 0x15] + TestUuid + [0x00, 0x01, 0x00, 0x02, 0xC5];
      BLEBeaconParser.Parse(Some(p), rev) == Got((false, Init()))
  {
    var p: Adv := [0x1A, 0xFF, 0x00, 0x01, 0x02, 0x15] + TestUuid + [0x00, 0x01, 0x00, 0x02, 0xC5];
    OneRecordOnly(p, rev);
  }

  lemma IBeaconWrongPrefixTest(rev: Revision)
    ensures var p: Adv := [0x1A, 0xFF, 0x4C, 0x00, 0x03, 0x16] + TestUuid + [0x00, 0x01, 0x00, 0x02, 0xC5];
      BLEBeaconParser.Parse(Some(p), rev) == Got((false, Init()))
  {
    var p: Adv := [0x1A, 0xFF, 0x4C, 0x00, 0x03, 0x16] + TestUuid + [0x00, 0x01, 0x00, 0x02, 0xC5];
    OneRecordOnly(p, rev);
  }

  lemma IBeaconShortDataTest(rev: Revision)
    ensures BLEBeaconParser.Parse(Some([0x05, 0xFF, 0x4C, 0x00, 0x02]), rev) == Got((false, Init()))
  {
    var p: Adv := [0x05, 0xFF, 0x4C, 0x00, 0x02];
    ScanStop(p, 0, Company(0x004C), rev);
    ScanStop(p, 0, Company(0x0118), rev);
    ScanStop(p, 0, EddystoneService, rev);
    BLEBeaconParser.NoManufacturerRecord(p, rev);
    BLEBeaconParser.NothingAccepted(p, rev);
  }

  /**
    A buffer that is one Manufacturer Specific Data record of 27 bytes whose
    window does not start `02 15` after Apple's ID nor `BE AC` after Radius's:
    no decoder accepts it.
   */
  lemma OneRecordOnly(p: Adv, rev: Revision)
    requires |p| == 27 && p[0] == 0x1A && p[1] == 0xFF
    requires LE16(p[2], p[3]) == 0x004C ==> p[4] != 0x02
    requires LE16(p[2], p[3]) != 0x0118
    ensures BLEBeaconParser.Parse(Some(p), rev) == Got((false, Init()))
  {
    assert Fits(p, 0);
    ScanStep(p, 0, Company(0x004C), rev);
    ScanStep(p, 0, Company(0x0118), rev);
    ScanStep(p, 0, EddystoneService, rev);
    ScanStop(p, 27, Company(0x004C), rev);
    ScanStop(p, 27, Company(0x0118), rev);
    ScanStop(p, 27, EddystoneService, rev);
    assert BLEBeaconParser.TryIBeacon(p, rev) == Got(None);
    assert BLEBeaconParser.TryAltBeacon(p, rev) == Got(None);
    BLEBeaconParser.NothingAccepted(p, rev);
  }

  const TestId: seq<byte> := [0x00, 0x11, 0x22, 0x33, 0x44, 0x55, 0x66, 0x77, 0x88, 0x99, 0xAA, 0xBB, 0xCC, 0xDD, 0xEE, 0xFF]

  /** The AltBeacon test: reference RSSI -59 dBm, reserved 0, major 1, minor 2, and the ID verbatim. */
  lemma AltBeaconTest(rev: Revision)
    ensures var p: Adv := [0x1B, 0xFF, 0x18, 0x01, 0xBE, 0xAC] + TestId + [0xC5, 0x00, 0x00, 0x01, 0x00, 0x02];
      BLEBeaconParser.Parse(Some(p), rev) == Got((true, BeaconData(AltBeacon(AltBeaconData(TestId, 1, 2, -59, 0x00)), true)))
  {
    var p: Adv := [0x1B, 0xFF, 0x18, 0x01, 0xBE, 0xAC] + TestId + [0xC5, 0x00, 0x00, 0x01, 0x00, 0x02];
    assert p == AltBeaconParser.Packet(TestId, 1, 2, -59, 0x00);
    BLEBeaconParser.AltBeaconPacketReads(TestId, 1, 2, -59, 0x00, rev);
  }

  /** The Eddystone-UID test: TX power -16 dBm, namespace `00 11 .. 99`, instance `AA .. FF`. */
  lemma EddystoneUidTest(rev: Revision)
    ensures var p: Adv := [0x15, 0x16, 0xAA, 0xFE, 0x00, 0xF0] + TestId[..10] + TestId[10..];
      BLEBeaconParser.Parse(Some(p), rev)
        == Got((true, BeaconData(EddystoneUid(EddystoneUidData(TestId[..10], TestId[10..], -16)), true)))
  {
    var d := EddystoneUidData(TestId[..10], TestId[10..], -16);
    var p: Adv := [0x15, 0x16, 0xAA, 0xFE, 0x00, 0xF0] + TestId[..10] + TestId[10..];
    assert p == EddystoneParser.Packet(0x00, EddystoneParser.UidFrame(d));
    BLEBeaconParser.UidPacketReads(d, rev);
  }

  /** "example" is copied as it is and `00` stands for ".com/". */
  lemma ExampleBody(body: seq<byte>)
    requires body == [0x65, 0x78, 0x61, 0x6D, 0x70, 0x6C, 0x65, 0x00]
    ensures EddystoneParser.Expand(body) == "example.com/"
  {
    var name, suffix := body[..7], body[7..];
    assert body == name + suffix;
    EddystoneParser.ExpandAppend(name, suffix);
    assert EddystoneParser.Expand(name) == "example" by {
      EddystoneParser.ExpandVerbatim(name);
    }
    assert EddystoneParser.Expand(suffix) == ".com/" by {
      assert suffix[1..] == [];
    }
  }

  /** Scheme `00` is "http://www.". */
  lemma ExampleUrl(body: seq<byte>)
    requires body == [0x65, 0x78, 0x61, 0x6D, 0x70, 0x6C, 0x65, 0x00]
    ensures EddystoneParser.DecodeUrlScheme(0x00) + EddystoneParser.Expand(body) == "http://www.example.com/"
  {
    ExampleBody(body);
  }

  /** The Eddystone-URL test: scheme `00`, "example", suffix `00`, TX power -16 dBm. */
  lemma EddystoneUrlTest(p: Adv, rev: Revision)
    requires p == [0x0E, 0x16, 0xAA, 0xFE, 0x10, 0xF0, 0x00, 0x65, 0x78, 0x61, 0x6D, 0x70, 0x6C, 0x65, 0x00]
    ensures BLEBeaconParser.Parse(Some(p), rev)
         == Got((true, BeaconData(EddystoneUrl(EddystoneUrlData("http://www.example.com/", -16)), true)))
  {
    var body := p[7..];
    assert p == EddystoneParser.Packet(0x10, EddystoneParser.UrlFrame(-16, 0x00, body)) by {
      assert p == [0x0E, 0x16, 0xAA, 0xFE, 0x10, 0xF0, 0x00] + body;
    }
    BLEBeaconParser.UrlPacketReads(-16, 0x00, body, rev);
    ExampleUrl(body);
  }

  /** The frame of the TLM test decodes to the readings the test expects. */
  lemma TlmTestFrame(f: seq<byte>)
    requires f == [0x00, 0x0B, 0xB8, 0x19, 0x00, 0x00, 0x00, 0x00, 0x64, 0x00, 0x00, 0x03, 0xE8]
    ensures EddystoneParser.ParseTlm(f) == Some(EddystoneTlmData(3000, 6400, 100, 100))
  {
    assert f[5..9] == [0x00, 0x00, 0x00, 0x64] && f[9..13] == [0x00, 0x00, 0x03, 0xE8];
  }

  /**
    The Eddystone-TLM test: 3000 mV, 0x1900 (25 degrees), 100 advertisements
    and 1000 tenths of a second, read as 100 seconds.
   */
  lemma EddystoneTlmTest(p: Adv, rev: Revision)
    requires p == [0x11, 0x16, 0xAA, 0xFE, 0x20, 0x00, 0x0B, 0xB8, 0x19, 0x00, 0x00, 0x00, 0x00, 0x64, 0x00, 0x00, 0x03, 0xE8]
    ensures var r := BLEBeaconParser.Parse(Some(p), rev);
      && r == Got((true, BeaconData(EddystoneTlm(EddystoneTlmData(3000, 6400, 100, 100)), true)))
      && (r.Got? && r.value.1.Type() == TypeEddystoneTlm ==> Celsius(r.value.1.GetEddystoneTlm()) == 25.0)
  {
    var frame := p[5..];
    TlmTestFrame(frame);
    assert p == EddystoneParser.Packet(0x20, frame);
    BLEBeaconParser.EddystonePacketReads(0x20, frame, rev);
    assert Celsius(EddystoneTlmData(3000, 6400, 100, 100)) == 25.0;
  }
}
