/**
  The AD structure scanner: the walk over `[Length][Type][Value...]` records
  of the advertising data (Bluetooth Core Specification, Vol 3, Part C,
  section 11) that the source writes out six times, once per search key.

  Every copy walks the same chain of records and differs only in which record
  it accepts and which window of bytes it reports; `Query` names the copy.
  `Revision` selects between the windows the code computes (`AsWritten`) and
  the windows the record layout calls for (`Corrected`).
 */
module Scanner {
  import opened Bytes
  import opened Reads

  /** AD type of Manufacturer Specific Data (Core Specification Supplement, Part A, section 1.4). */
  const ManufacturerSpecificData: byte := 0xFF
  /** AD type of 16-bit-UUID Service Data (Core Specification Supplement, Part A, section 1.11). */
  const ServiceData: byte := 0x16

  /** The advertising data: `len` is a `uint8_t`, so at most 255 bytes. */
  type Adv = s: seq<byte> | |s| <= 255

  datatype Revision = AsWritten | Corrected

  /** A view `[offset, offset + length)` into the caller's buffer. */
  datatype Window = Window(offset: nat, length: nat) {
    function End(): nat {
      offset + length
    }
  }

  /**
    The two spellings of "this record runs past the buffer":
    `pos + ad_len >= len` in five copies, `pos + 1 + ad_len > len` in the
    Eddystone copy.
   */
  datatype Guard = AtOrPast | Beyond

  predicate RunsPast(pos: int, adLen: int, len: int, g: Guard) {
    match g
    case AtOrPast => pos + adLen >= len
    case Beyond => pos + 1 + adLen > len
  }

  /** With `uint8_t` operands promoted to `int`, the two spellings are one test. */
  lemma GuardFormsAgree(pos: int, adLen: int, len: int)
    ensures RunsPast(pos, adLen, len, AtOrPast) <==> RunsPast(pos, adLen, len, Beyond)
  {
  }

  /** Which copy of the loop: what it searches for. */
  datatype Query =
    | AdType(adType: byte)              // BLEBeaconParser::findADType
    | Company(id: uint16)               // BLEBeaconParser::findManufacturerData
    | CompanyBytes(lo: byte, hi: byte)  // findAppleManufacturerData, findRadiusManufacturerData
    | Service(uuid: uint16)             // BLEBeaconParser::findServiceData
    | EddystoneService                  // EddystoneParser::findEddystoneServiceData
  {
    /** Searches that compare a 16-bit key after the type byte. */
    predicate Keyed() {
      !AdType?
    }

    /** Manufacturer searches skip the company ID; service searches keep the UUID. */
    predicate SkipsKey() {
      Company? || CompanyBytes?
    }

    function RecordType(): byte {
      match this
      case AdType(t) => t
      case Company(_) => ManufacturerSpecificData
      case CompanyBytes(_, _) => ManufacturerSpecificData
      case _ => ServiceData
    }

    /** Whether the key bytes, in wire order, are the ones searched for. */
    predicate KeyMatches(lo: byte, hi: byte) {
      match this
      case AdType(_) => true
      case Company(id) => LE16(lo, hi) == id
      case CompanyBytes(l, h) => lo == l && hi == h
      case Service(uuid) => LE16(lo, hi) == uuid
      case EddystoneService => lo == 0xAA && hi == 0xFE
    }

    function Guard(): Guard {
      if EddystoneService? then Beyond else AtOrPast
    }

    /** How many bytes of the record precede the window: length, type, and the company ID if skipped. */
    function Header(): nat {
      if SkipsKey() then 4 else 2
    }
  }

  /** The shortest `ad_len` at which a keyed search reads the key. */
  function MinKeyedLength(rev: Revision): nat {
    if rev == AsWritten then 2 else 3
  }

  /** How far past the end of its record the window reaches. */
  function Slack(q: Query, rev: Revision): nat {
    if rev == AsWritten && (q.SkipsKey() || q.Service?) then 1 else 0
  }

  /** A record starts at `pos` and its `1 + ad_len` bytes lie inside the buffer. */
  predicate Fits(buf: seq<byte>, pos: nat) {
    pos < |buf| && buf[pos] > 0 && pos + buf[pos] < |buf|
  }

  /** The index just past the record at `pos`. */
  function RecordEnd(buf: seq<byte>, pos: nat): nat
    requires Fits(buf, pos)
  {
    pos + 1 + buf[pos]
  }

  /** The record at `pos` is one that `q` accepts, its key lying inside the buffer. */
  predicate Selected(buf: seq<byte>, pos: nat, q: Query, rev: Revision)
    requires Fits(buf, pos)
  {
    && buf[pos + 1] == q.RecordType()
    && (q.Keyed() ==>
          && buf[pos] >= MinKeyedLength(rev)
          && pos + 3 < |buf|
          && q.KeyMatches(buf[pos + 2], buf[pos + 3]))
  }

  /**
    The window `w` belongs to a record that `q` accepts, starting `Header`
    bytes before it, and ends where that record ends, plus the `Slack`.
   */
  predicate Describes(buf: seq<byte>, q: Query, rev: Revision, w: Window) {
    && w.offset >= q.Header()
    && var pos := w.offset - q.Header();
    && Fits(buf, pos)
    && Selected(buf, pos, q, rev)
    && w.End() == RecordEnd(buf, pos) + Slack(q, rev)
  }

  /** `pos += ad_len + 1` on a `uint8_t` cursor. */
  function NextCursor(pos: byte, adLen: byte): (next: byte)
    ensures pos + adLen + 1 < 0x100 ==> next == pos + adLen + 1
  {
    (pos + adLen + 1) % 0x100
  }

  /**
    The body of the loop for a record that fits: test the type byte, then for
    a keyed search the length guard and the two key bytes `data[pos + 2]` and
    `data[pos + 3]`, both read before they are compared.
   */
  function MatchAt(buf: seq<byte>, pos: nat, q: Query, rev: Revision): (r: Fetch<Option<Window>>)
    requires Fits(buf, pos)
    ensures r.PastEnd? ==> rev == AsWritten && q.Keyed() && buf[pos] == 2 && r.index == pos + 3 == |buf|
    ensures r.PastEnd? <==> rev == AsWritten && q.Keyed() && buf[pos + 1] == q.RecordType() && buf[pos] == 2 && pos + 3 == |buf|
    ensures r.Got? ==> (r.value.Some? <==> Selected(buf, pos, q, rev))
    ensures r.Got? && r.value.Some? ==> r.value.value.offset == pos + q.Header() && Describes(buf, q, rev, r.value.value)
  {
    var adLen := buf[pos];
    var found := buf[pos + 1];
    if !q.Keyed() then
      Got(if found == q.adType then Some(Window(pos + 2, adLen - 1)) else None)
    else if found != q.RecordType() || adLen < MinKeyedLength(rev) then
      Got(None)
    else
      var lo := buf[pos + 2];
      var hi :- At(buf, pos + 3);
      if !q.KeyMatches(lo, hi) then Got(None)
      else if q.SkipsKey() then
        Got(Some(Window(pos + 4, if rev == AsWritten then adLen - 2 else adLen - 3)))
      else if q.Service? then
        Got(Some(Window(pos + 2, if rev == AsWritten then adLen else adLen - 1)))
      else
        Got(Some(Window(pos + 2, adLen - 1)))
  }

  /**
    The loop from cursor `pos`: stop on the end of the buffer, on a zero
    length byte or on a record that runs past the buffer; otherwise report the
    record if it matches and move on by `ad_len + 1` if not.
   */
  function ScanFrom(buf: Adv, pos: nat, q: Query, rev: Revision): (r: Fetch<Option<Window>>)
    requires pos <= |buf|
    decreases |buf| - pos
    ensures r.PastEnd? ==> rev == AsWritten && q.Keyed() && r.index == |buf|
    ensures r.Got? && r.value.Some? ==>
      && pos + 2 <= r.value.value.offset
      && Describes(buf, q, rev, r.value.value)
      && r.value.value.End() <= |buf| + Slack(q, rev)
  {
    if pos < |buf| then
      var adLen := buf[pos];
      if adLen == 0 then Got(None)
      else if RunsPast(pos, adLen, |buf|, q.Guard()) then Got(None)
      else
        var m :- MatchAt(buf, pos, q, rev);
        if m.Some? then Got(m) else ScanFrom(buf, NextCursor(pos, adLen), q, rev)
    else
      Got(None)
  }

  /**
    The record chain every copy walks: the starts of the records that fit,
    each `ad_len + 1` after the previous one, up to the first that does not.
   */
  function Chain(buf: Adv, pos: nat): (c: seq<nat>)
    requires pos <= |buf|
    decreases |buf| - pos
    ensures forall k :: 0 <= k < |c| ==> pos <= c[k] && Fits(buf, c[k])
    ensures forall j, k :: 0 <= j < |c| && k == j + 1 < |c| ==> Fits(buf, c[j]) && c[k] == c[j] + buf[c[j]] + 1
    ensures |c| > 0 ==> c[0] == pos
  {
    if Fits(buf, pos) then [pos] + Chain(buf, pos + buf[pos] + 1) else []
  }

  /** One turn of the loop on a record that fits: report its match, or move on by `ad_len + 1`. */
  lemma ScanStep(buf: Adv, pos: nat, q: Query, rev: Revision)
    requires Fits(buf, pos)
    ensures ScanFrom(buf, pos, q, rev) ==
      if MatchAt(buf, pos, q, rev) == Got(None) then ScanFrom(buf, pos + buf[pos] + 1, q, rev)
      else MatchAt(buf, pos, q, rev)
  {
    GuardFormsAgree(pos, buf[pos], |buf|);
    assert NextCursor(pos, buf[pos]) == pos + buf[pos] + 1;
  }

  /** The loop stops, reporting nothing, where no record fits. */
  lemma ScanStop(buf: Adv, pos: nat, q: Query, rev: Revision)
    requires pos <= |buf| && !Fits(buf, pos)
    ensures ScanFrom(buf, pos, q, rev) == Got(None)
    ensures Chain(buf, pos) == []
  {
    if pos < |buf| && buf[pos] > 0 {
      GuardFormsAgree(pos, buf[pos], |buf|);
    }
  }

  /** The match outcome of each record start in `c`, in order. */
  function Matches(buf: seq<byte>, c: seq<nat>, q: Query, rev: Revision): (ms: seq<Fetch<Option<Window>>>)
    requires forall k :: 0 <= k < |c| ==> Fits(buf, c[k])
    ensures |ms| == |c|
    ensures forall k :: 0 <= k < |c| ==> ms[k] == MatchAt(buf, c[k], q, rev)
  {
    seq(|c|, k requires 0 <= k < |c| => MatchAt(buf, c[k], q, rev))
  }

  /** The first outcome other than "no" in a list of outcomes. */
  function First(ms: seq<Fetch<Option<Window>>>): Fetch<Option<Window>> {
    if |ms| == 0 then Got(None)
    else if ms[0] != Got(None) then ms[0]
    else First(ms[1..])
  }

  /** `First` is "no" only if every outcome is, and otherwise is the earliest outcome that is not. */
  lemma {:induction false} FirstIsEarliest(ms: seq<Fetch<Option<Window>>>)
    ensures First(ms) == Got(None) <==> forall k :: 0 <= k < |ms| ==> ms[k] == Got(None)
    ensures First(ms) != Got(None) ==>
      exists k :: 0 <= k < |ms| && ms[k] == First(ms) && forall j :: 0 <= j < k ==> ms[j] == Got(None)
  {
    if |ms| > 0 {
      FirstIsEarliest(ms[1..]);
      if ms[0] == Got(None) {
        if First(ms) != Got(None) {
          var k' :| 0 <= k' < |ms| - 1 && ms[1..][k'] == First(ms[1..])
                    && forall j :: 0 <= j < k' ==> ms[1..][j] == Got(None);
          assert ms[k' + 1] == First(ms);
          forall j | 0 <= j < k' + 1
            ensures ms[j] == Got(None)
          {
            if j > 0 {
              assert ms[j] == ms[1..][j - 1];
            }
          }
        } else {
          forall k | 0 <= k < |ms|
            ensures ms[k] == Got(None)
          {
            if k > 0 {
              assert ms[k] == ms[1..][k - 1];
            }
          }
        }
      }
    }
  }

  /** The scan is the first outcome other than "no" along the record chain. */
  lemma {:induction false} ScanIsFirstOfChain(buf: Adv, pos: nat, q: Query, rev: Revision)
    requires pos <= |buf|
    decreases |buf| - pos
    ensures ScanFrom(buf, pos, q, rev) == First(Matches(buf, Chain(buf, pos), q, rev))
  {
    if !Fits(buf, pos) {
      ScanStop(buf, pos, q, rev);
    } else {
      ScanStep(buf, pos, q, rev);
      var next := pos + buf[pos] + 1;
      var ms := Matches(buf, Chain(buf, pos), q, rev);
      var ms' := Matches(buf, Chain(buf, next), q, rev);
      assert Chain(buf, pos) == [pos] + Chain(buf, next);
      assert ms[0] == MatchAt(buf, pos, q, rev);
      assert ms[1..] == ms';
      ScanIsFirstOfChain(buf, next, q, rev);
    }
  }

  /**
    Every copy of the loop reports the first record of the chain whose match
    is not "no": nothing when no record is selected, else that record's
    window, or the read past the buffer that its key test makes.
   */
  lemma ScanFindsFirstMatch(buf: Adv, q: Query, rev: Revision)
    ensures var c := Chain(buf, 0); var r := ScanFrom(buf, 0, q, rev);
      && (r == Got(None) <==> forall k :: 0 <= k < |c| ==> MatchAt(buf, c[k], q, rev) == Got(None))
      && (r != Got(None) ==>
            exists k :: 0 <= k < |c| && MatchAt(buf, c[k], q, rev) == r
                        && forall j :: 0 <= j < k ==> MatchAt(buf, c[j], q, rev) == Got(None))
  {
    var c := Chain(buf, 0);
    ScanIsFirstOfChain(buf, 0, q, rev);
    FirstIsEarliest(Matches(buf, c, q, rev));
  }

  /**
    What a search hands its caller: a read past the buffer only as written
    and only at `len`, and a window that ends at most one byte past the
    buffer, and that only as written.
   */
  predicate Handed(buf: seq<byte>, f: Fetch<Option<Window>>, rev: Revision) {
    && (f.PastEnd? ==> rev == AsWritten && f.index == |buf|)
    && (f.Got? && f.value.Some? ==> f.value.value.End() <= |buf| + (if rev == AsWritten then 1 else 0))
  }

  /** The search found a window of at least `n` bytes whose first bytes, inside the buffer, are `lead`. */
  predicate FoundWith(buf: seq<byte>, f: Fetch<Option<Window>>, n: nat, lead: seq<byte>) {
    && f.Got? && f.value.Some?
    && f.value.value.length >= n
    && f.value.value.offset + |lead| <= |buf|
    && buf[f.value.value.offset..f.value.value.offset + |lead|] == lead
  }

  /** `findManufacturerData`: Manufacturer Specific Data whose little-endian company ID is `companyId`. */
  function FindManufacturerData(buf: Adv, companyId: uint16, rev: Revision): (r: Fetch<Option<Window>>)
    ensures r.PastEnd? ==> rev == AsWritten && r.index == |buf|
    ensures r.Got? && r.value.Some? ==> var w := r.value.value;
      && 4 <= w.offset <= |buf|
      && buf[w.offset - 3] == ManufacturerSpecificData
      && LE16(buf[w.offset - 2], buf[w.offset - 1]) == companyId
      && w.length == buf[w.offset - 4] as int - (if rev == AsWritten then 2 else 3)
      && w.End() <= |buf| + (if rev == AsWritten then 1 else 0)
    ensures Handed(buf, r, rev)
  {
    ScanFrom(buf, 0, Company(companyId), rev)
  }

  /** `findServiceData`: Service Data whose little-endian UUID is `uuid`; the window keeps the UUID. */
  function FindServiceData(buf: Adv, uuid: uint16, rev: Revision): (r: Fetch<Option<Window>>)
    ensures r.PastEnd? ==> rev == AsWritten && r.index == |buf|
    ensures r.Got? && r.value.Some? ==> var w := r.value.value;
      && w.offset >= 2
      && w.offset + 1 < |buf|
      && buf[w.offset - 1] == ServiceData
      && LE16(buf[w.offset], buf[w.offset + 1]) == uuid
      && w.length == buf[w.offset - 2] as int - (if rev == AsWritten then 0 else 1)
      && w.End() <= |buf| + (if rev == AsWritten then 1 else 0)
  {
    ScanFrom(buf, 0, Service(uuid), rev)
  }

  /** `findADType`: the first record of type `adType`, every byte after the type byte; it never reads past the buffer. */
  function FindAdType(buf: Adv, adType: byte): (r: Fetch<Option<Window>>)
    ensures r.Got?
    ensures r.value.Some? ==> var w := r.value.value;
      && 2 <= w.offset <= |buf|
      && buf[w.offset - 1] == adType
      && w.length == buf[w.offset - 2] as int - 1
      && w.End() <= |buf|
  {
    ScanFrom(buf, 0, AdType(adType), AsWritten)
  }

  /**
    The copies that compare the two company bytes one by one (Apple, Radius)
    are `findManufacturerData` with the company ID those bytes spell.
   */
  lemma {:induction false} CompanyBytesIsCompany(buf: Adv, pos: nat, lo: byte, hi: byte, rev: Revision)
    requires pos <= |buf|
    decreases |buf| - pos
    ensures ScanFrom(buf, pos, CompanyBytes(lo, hi), rev) == ScanFrom(buf, pos, Company(LE16(lo, hi)), rev)
  {
    var qb, qc := CompanyBytes(lo, hi), Company(LE16(lo, hi));
    if Fits(buf, pos) {
      ScanStep(buf, pos, qb, rev);
      ScanStep(buf, pos, qc, rev);
      assert MatchAt(buf, pos, qb, rev) == MatchAt(buf, pos, qc, rev) by {
        if pos + 3 < |buf| {
          assert qb.KeyMatches(buf[pos + 2], buf[pos + 3]) <==> qc.KeyMatches(buf[pos + 2], buf[pos + 3]);
        }
      }
      CompanyBytesIsCompany(buf, pos + buf[pos] + 1, lo, hi, rev);
    } else {
      ScanStop(buf, pos, qb, rev);
      ScanStop(buf, pos, qc, rev);
    }
  }

  /**
    The Eddystone copy finds the record `findServiceData` finds for UUID
    0xFEAA, with a window one byte shorter where `findServiceData` is off.
   */
  lemma {:induction false} EddystoneSearchIsServiceSearch(buf: Adv, pos: nat, rev: Revision)
    requires pos <= |buf|
    decreases |buf| - pos
    ensures var e, s := ScanFrom(buf, pos, EddystoneService, rev), ScanFrom(buf, pos, Service(0xFEAA), rev);
      && e.PastEnd? == s.PastEnd?
      && (e.PastEnd? ==> e.index == s.index)
      && (e.Got? ==> (e.value.Some? <==> s.value.Some?))
      && (e.Got? && e.value.Some? ==>
            e.value.value == Window(s.value.value.offset, s.value.value.length - Slack(Service(0xFEAA), rev)))
  {
    var qe, qs := EddystoneService, Service(0xFEAA);
    if Fits(buf, pos) {
      ScanStep(buf, pos, qe, rev);
      ScanStep(buf, pos, qs, rev);
      if pos + 3 < |buf| {
        assert qe.KeyMatches(buf[pos + 2], buf[pos + 3]) <==> qs.KeyMatches(buf[pos + 2], buf[pos + 3]);
      }
      EddystoneSearchIsServiceSearch(buf, pos + buf[pos] + 1, rev);
    } else {
      ScanStop(buf, pos, qe, rev);
      ScanStop(buf, pos, qs, rev);
    }
  }

  /** With the corrected windows no copy reads past the buffer and every window is the rest of its record. */
  lemma CorrectedScanStaysInRecord(buf: Adv, q: Query)
    ensures ScanFrom(buf, 0, q, Corrected).Got?
    ensures var r := ScanFrom(buf, 0, q, Corrected);
      r.value.Some? ==> var w := r.value.value;
        w.End() <= |buf| && w.End() == RecordEnd(buf, w.offset - q.Header())
  {
  }

  /**
    As written, a manufacturer record of `ad_len == 2` at the end of the
    buffer makes the scan read the company ID's high byte at index `len`.
   */
  lemma KeyReadPastBuffer()
    ensures FindManufacturerData([0x02, 0xFF, 0x4C], 0x004C, AsWritten) == PastEnd(3)
    ensures FindManufacturerData([0x02, 0xFF, 0x4C], 0x004C, Corrected) == Got(None)
  {
  }

  /**
    The packet of the manufacturer-data test: the code reports three bytes
    after the company ID where the record holds two, so the window takes in
    the next record's length byte.
   */
  lemma ManufacturerWindowOverrunsRecord()
    ensures var buf: Adv := [0x05, 0xFF, 0x4C, 0x00, 0x01, 0x02, 0x03, 0x01, 0x02, 0x03];
      && FindManufacturerData(buf, 0x004C, AsWritten) == Got(Some(Window(4, 3)))
      && RecordEnd(buf, 0) == 6
      && FindManufacturerData(buf, 0x004C, Corrected) == Got(Some(Window(4, 2)))
  {
  }

  /**
    A service record that ends the buffer: the code reports `ad_len` bytes
    from the UUID where `ad_len - 1` exist, a window that ends past `len`.
   */
  lemma ServiceWindowOverrunsRecord()
    ensures var buf: Adv := [0x03, 0x16, 0xAA, 0xFE];
      && FindServiceData(buf, 0xFEAA, AsWritten) == Got(Some(Window(2, 3)))
      && Window(2, 3).End() > |buf|
      && FindServiceData(buf, 0xFEAA, Corrected) == Got(Some(Window(2, 2)))
  {
  }

  /**
    The two packets of the helper tests. The manufacturer record there holds
    `01 03` after the company ID; the code reports three bytes, the test
    expects one, and the record's own length gives two. The service record's
    window is five bytes as the code stands, the UUID included.
   */
  lemma HelperTestWindows()
    ensures var buf: Adv := [0x05, 0xFF, 0x4C, 0x00, 0x01, 0x03, 0x01, 0x02, 0x03];
      && FindManufacturerData(buf, 0x004C, AsWritten) == Got(Some(Window(4, 3)))
      && FindManufacturerData(buf, 0x004C, Corrected) == Got(Some(Window(4, 2)))
      && buf[4] == 0x01
    ensures var buf: Adv := [0x05, 0x16, 0xAA, 0xFE, 0x01, 0x03, 0x01, 0x02, 0x03];
      && FindServiceData(buf, 0xFEAA, AsWritten) == Got(Some(Window(2, 5)))
      && FindServiceData(buf, 0xFEAA, Corrected) == Got(Some(Window(2, 4)))
      && buf[2] == 0xAA && buf[3] == 0xFE
  {
  }
}
