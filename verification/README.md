# BLE beacon advertisement parser, modelled in Dafny

BLEBeaconParser takes the raw advertising data of a Bluetooth Low Energy
advertisement: a buffer of at most 255 bytes made of `[Length][Type][Value...]`
AD structures. It decides whether the buffer carries an iBeacon, an AltBeacon
or an Eddystone (UID, URL or TLM) frame, and fills a `BeaconData` with the
decoded fields.

This project models the following parts:

- **The AD structure scanner.** The source writes the record walk out six
  times: `findManufacturerData`, `findServiceData`, `findADType`,
  `findAppleManufacturerData`, `findRadiusManufacturerData` and
  `findEddystoneServiceData`. Here it is one function, `Scanner.ScanFrom`,
  with a `Query` naming which copy runs.
- **The three format decoders.** Each has its `canParse` and `parse`. The
  Eddystone decoder also has its UID, URL and TLM frame decoders and its URL
  scheme and suffix tables.
- **The dispatcher `BLEBeaconParser::parse`.** It tries iBeacon, then
  AltBeacon, then Eddystone.
- **The `BeaconData` result.** It has a type tag, a validity flag and a union
  of payloads, plus its constructor, copy constructor, assignment operator and
  accessors.

**Out-of-bounds reads.** A read that the C++ code makes past the end of the
caller's buffer is undefined behaviour. In the model such a read is an
explicit outcome, `Reads.PastEnd(index)`. Every operation that can make one
returns a `Reads.Fetch`, and the failure propagates with `:-` the way control
leaves the C++ function.

**Two revisions.** Every search, decoder and the dispatcher take a
`Scanner.Revision`:

- `AsWritten` computes the windows the code computes.
- `Corrected` computes the windows the record layout calls for.

Where the two differ is listed under Findings. Each difference is exhibited
by a concrete input. The corrected behaviour is proved to keep every read
inside the buffer and every window inside its record.

The model's structure:

| module | file | models |
|---|---|---|
| `Bytes` | bytes.dfy | `uint8_t`/`uint16_t`/`uint32_t`/`int8_t`/`int16_t`, big- and little-endian assembly, the signed casts |
| `Reads` | reads.dfy | `Option`, and a bounds-checked read that reports the index it missed |
| `Hex`, `UuidText` | hex.dfy, uuid_text.dfy | `uuidToString` and the `%02X` rendering it uses |
| `Scanner` | scanner.dfy | the six copies of the AD structure walk |
| `Beacon` | beacon_data.dfy | `BeaconType`, the payload structs, `BeaconData` |
| `IBeaconParser`, `AltBeaconParser`, `EddystoneParser` | ibeacon.dfy, altbeacon.dfy, eddystone.dfy | the format decoders |
| `BLEBeaconParser` | dispatcher.dfy | `BLEBeaconParser::parse` |
| `Vectors` | vectors.dfy | the packets of the repository's unit tests |
| `Seqs` | seqs.dfy | three sequence facts used by the proofs |

How the source maps onto the model:

- **The buffer.** `data`/`len` is a `seq<byte>` of length `len`, typed
  `Scanner.Adv` (`|s| <= 255`). A null `data` pointer is `None`.
- **Windows.** A search's `out_data`/`out_len` pair is a `Scanner.Window`
  (an offset into the buffer and a length).
- **The result.** The dispatcher returns the boolean together with the
  `BeaconData` it leaves behind.
- **Temperature.** The model keeps the signed 8.8 fixed-point value read from
  the frame. `Beacon.Celsius` gives the temperature as an exact `real`.

## Model

| member | source | states |
|---|---|---|
| Bytes.BE16 | lib/BLEBeaconParser/src/parsers/iBeaconParser.cpp:55 | a big-endian 16-bit field has the first byte as its high byte and the second as its low byte |
| Bytes.LE16 | lib/BLEBeaconParser/src/BLEBeaconParser.cpp:73-75 | the company ID and service UUID are little-endian: the second byte on the wire is the high byte |
| Bytes.Split16 | lib/BLEBeaconParser/src/parsers/AltBeaconParser.cpp:64 | the two wire bytes an encoder writes for a 16-bit field read back as that value |
| Bytes.Split16BE16 | lib/BLEBeaconParser/src/parsers/EddystoneParser.cpp:193 | big-endian reading loses nothing: the bytes are recovered from the value |
| Bytes.BE32 | lib/BLEBeaconParser/src/parsers/EddystoneParser.cpp:200-206 | the TLM's shifted-together 32-bit fields are the first two bytes as the big-endian high half and the last two as the low half |
| Bytes.BE32Split32 | lib/BLEBeaconParser/src/parsers/EddystoneParser.cpp:200-202 | a 32-bit big-endian field read back from its four wire bytes is the value written |
| Bytes.Split32BE32 | lib/BLEBeaconParser/src/parsers/EddystoneParser.cpp:205-207 | every four-byte field is the encoding of the value read from it |
| Bytes.ToInt8 | lib/BLEBeaconParser/src/parsers/iBeaconParser.cpp:61 | the `(int8_t)` cast is negative exactly when the top bit is set and is congruent to the byte modulo 256 |
| Bytes.FromInt8 | lib/BLEBeaconParser/src/parsers/iBeaconParser.cpp:61 | the byte a transmitter sends for a signed TX power reads back, through the cast, as that power |
| Bytes.Int8RoundTrip | lib/BLEBeaconParser/src/parsers/AltBeaconParser.cpp:58 | the signed cast is injective on bytes: the byte is recovered from the signed value |
| Bytes.ToInt16 | lib/BLEBeaconParser/src/parsers/EddystoneParser.cpp:196 | storing the assembled temperature into `int16_t` wraps two's-complement: negative exactly when bit 15 is set, congruent modulo 65536 |
| Bytes.FromInt16 | lib/BLEBeaconParser/src/parsers/EddystoneParser.cpp:196 | the raw temperature a transmitter sends reads back as itself |
| Bytes.Int16RoundTrip | lib/BLEBeaconParser/src/parsers/EddystoneParser.cpp:196 | the 16-bit conversion is injective on the wire value |
| Reads.At | lib/BLEBeaconParser/src/BLEBeaconParser.cpp:54 | a byte read succeeds exactly when the index is below `len`, returns that byte, and otherwise names the index it missed |
| Hex.Digit | lib/BLEBeaconParser/src/parsers/iBeaconParser.cpp:82 | every nibble renders as an upper-case hexadecimal digit |
| Hex.DigitValue | lib/BLEBeaconParser/src/parsers/iBeaconParser.cpp:82 | a character has a nibble value exactly when it is an upper-case hex digit, and that value renders back as the character |
| Hex.ByteToHex | lib/BLEBeaconParser/src/parsers/iBeaconParser.cpp:81-83 | `%02X` gives exactly two hex digits per byte, leading zero kept |
| Hex.Render | lib/BLEBeaconParser/src/parsers/iBeaconParser.cpp:72-84 | rendering bytes gives two characters per byte; what the characters are is stated by `Hex.RenderAppend`, `Hex.RenderIsDigits` and `Hex.ParseRender` |
| Hex.RenderAppend | lib/BLEBeaconParser/src/parsers/iBeaconParser.cpp:72-84 | rendering distributes over concatenation, so the UUID text is its groups' renderings joined |
| Hex.RenderIsDigits | lib/BLEBeaconParser/src/parsers/iBeaconParser.cpp:82 | every character of a rendering is a hex digit |
| Hex.ParseRender | lib/BLEBeaconParser/src/parsers/iBeaconParser.cpp:82 | the hex rendering is invertible: parsing it gives back the bytes |
| Hex.StripDashes | lib/BLEBeaconParser/src/parsers/iBeaconParser.cpp:74-77 | not code of the source: the inverse of the dash insertion, used to state `UuidText.UuidTextRoundTrip`; removing dashes never lengthens a text |
| Hex.StripDashesAppend | lib/BLEBeaconParser/src/parsers/iBeaconParser.cpp:74-77 | dash removal distributes over concatenation |
| Hex.StripDashesRender | lib/BLEBeaconParser/src/parsers/iBeaconParser.cpp:82 | a hex rendering holds no dashes |
| UuidText.UuidToString | lib/BLEBeaconParser/src/parsers/iBeaconParser.cpp:68-87 | the loop's text is the 8-4-4-4-12 grouping of the sixteen bytes and is 36 characters long |
| UuidText.FormatIsGrouped | lib/BLEBeaconParser/src/parsers/iBeaconParser.cpp:72-84 | the byte-at-a-time loop that inserts a dash before bytes 4, 6, 8 and 10 yields the grouped form |
| UuidText.WrittenGroups | lib/BLEBeaconParser/src/parsers/iBeaconParser.cpp:75-77 | after bytes 4, 6, 8, 10 and 16 the text written so far is the earlier groups, a dash, and the next group's rendering |
| UuidText.UuidTextLayout | lib/BLEBeaconParser/src/parsers/iBeaconParser.cpp:68-87 | the UUID text has dashes at exactly positions 8, 13, 18 and 23 and hex digits everywhere else |
| UuidText.UuidTextRoundTrip | lib/BLEBeaconParser/src/parsers/iBeaconParser.cpp:68-87 | the UUID text determines the UUID: removing the dashes and parsing the hex gives back the sixteen bytes |
| Scanner.GuardFormsAgree | lib/BLEBeaconParser/src/parsers/EddystoneParser.cpp:88 | the Eddystone copy's `pos + 1 + ad_len > len` and the other copies' `pos + ad_len >= len` stop on exactly the same records |
| Scanner.NextCursor | lib/BLEBeaconParser/src/BLEBeaconParser.cpp:88 | the `uint8_t` cursor advance is exact whenever the next record start is below 256 |
| Scanner.MatchAt | lib/BLEBeaconParser/src/BLEBeaconParser.cpp:66-85 | one record's test: it faults exactly when, as written, a keyed search meets a two-byte record of the searched type whose key's high byte is index `len`; it accepts exactly the records of the searched type whose key is inside the buffer and matches; an accepted window starts after the header and ends at the record's end plus the revision's slack |
| Scanner.ScanFrom | lib/BLEBeaconParser/src/BLEBeaconParser.cpp:53-89 | the walk from any record start faults only at `len`, only as written and only for a keyed search; a reported window lies after the cursor, belongs to an accepted record and ends at most the slack past the buffer |
| Scanner.Chain | lib/BLEBeaconParser/src/BLEBeaconParser.cpp:53-88 | the records the walk visits start at the cursor, each fits the buffer, and each begins `ad_len + 1` after the previous one |
| Scanner.ScanStep | lib/BLEBeaconParser/src/BLEBeaconParser.cpp:53-88 | on a record that fits, the loop reports that record's outcome if it is not "no", and otherwise continues `ad_len + 1` bytes on |
| Scanner.ScanStop | lib/BLEBeaconParser/src/BLEBeaconParser.cpp:56-64 | the loop stops with "not found" at the end of the buffer, on a zero length byte and on a record that runs past the buffer |
| Scanner.Matches | lib/BLEBeaconParser/src/BLEBeaconParser.cpp:53-88 | the outcome list has one entry per record of the chain, each the outcome of testing that record |
| Scanner.FirstIsEarliest | lib/BLEBeaconParser/src/BLEBeaconParser.cpp:78-82 | the first outcome other than "no" is "no" only if every outcome is, and otherwise is preceded only by "no"s |
| Scanner.ScanIsFirstOfChain | lib/BLEBeaconParser/src/BLEBeaconParser.cpp:53-88 | the loop from any record start equals the first non-"no" outcome along the record chain from there |
| Scanner.ScanFindsFirstMatch | lib/BLEBeaconParser/src/BLEBeaconParser.cpp:48-92 | every copy of the walk reports "not found" exactly when no record of the chain is selected, and otherwise reports the earliest record's window or fault |
| Scanner.FindManufacturerData | lib/BLEBeaconParser/src/BLEBeaconParser.cpp:48-92 | a found window starts four bytes into a Manufacturer Specific Data record whose little-endian company ID is the one searched for; its length is `ad_len - 2` as written or `ad_len - 3` corrected; it overruns the buffer by at most one byte, and only as written; a fault happens only as written and only at `len` |
| Scanner.FindServiceData | lib/BLEBeaconParser/src/BLEBeaconParser.cpp:94-138 | a found window starts at the UUID of a Service Data record whose little-endian UUID matches; its length is `ad_len` as written or `ad_len - 1` corrected; only the code as written overruns the buffer or faults |
| Scanner.FindAdType | lib/BLEBeaconParser/src/BLEBeaconParser.cpp:140-173 | the type search never faults; a found window follows a type byte equal to the one searched for, holds the record's `ad_len - 1` value bytes and stays inside the buffer |
| Scanner.CompanyBytesIsCompany | lib/BLEBeaconParser/src/parsers/iBeaconParser.cpp:89-132 | the Apple and Radius copies, which compare the two company bytes one at a time, give the same result as `findManufacturerData` for the company ID those bytes spell, on every buffer and from every record start |
| Scanner.EddystoneSearchIsServiceSearch | lib/BLEBeaconParser/src/parsers/EddystoneParser.cpp:73-118 | the Eddystone copy faults, finds and misses exactly when `findServiceData` for 0xFEAA does, at the same offset, with a window one byte shorter as written and the same window corrected |
| Scanner.CorrectedScanStaysInRecord | lib/BLEBeaconParser/src/BLEBeaconParser.cpp:62-82 | with the corrected guard and lengths no copy reads past the buffer, and every window ends exactly where its record ends |
| Scanner.KeyReadPastBuffer | lib/BLEBeaconParser/src/BLEBeaconParser.cpp:72-74 | as written, a two-byte manufacturer record that ends the buffer makes the walk read the company ID's high byte at index `len`; corrected, the record is skipped |
| Scanner.ManufacturerWindowOverrunsRecord | test/test_helpers.cpp:4-27 | on the manufacturer test packet the code reports three bytes after the company ID where the record holds two, so the window swallows the next record's length byte |
| Scanner.ServiceWindowOverrunsRecord | lib/BLEBeaconParser/src/BLEBeaconParser.cpp:126-127 | as written, a service record that ends the buffer yields a window ending one byte past `len` |
| Scanner.HelperTestWindows | lib/BLEBeaconParser/test/test_helpers.cpp:4-38 | on the library's helper-test packets the code reports a three-byte manufacturer window and a five-byte service window; the records hold two and four |
| Beacon.Ordinal | lib/BLEBeaconParser/src/BeaconData.h:15-22 | the enumerators take the values 0 to 5 in declaration order, and each value maps back to its enumerator |
| Beacon.OfOrdinal | lib/BLEBeaconParser/src/BeaconData.h:15-22 | exactly the integers 0 to 5 name an enumerator |
| Beacon.OrdinalInjective | lib/BLEBeaconParser/src/BeaconData.h:15-22 | no two enumerators share a value |
| Beacon.Celsius | lib/BLEBeaconParser/src/parsers/EddystoneParser.cpp:196-197 | the 8.8 fixed-point temperature lies in [-128, 128) degrees |
| Beacon.BeaconData.GetIBeacon | lib/BLEBeaconParser/src/BeaconData.h:189-191 | the iBeacon accessor may be used only on an iBeacon reading and returns the payload stored there |
| Beacon.BeaconData.GetEddystoneUid | lib/BLEBeaconParser/src/BeaconData.h:196-198 | the UID accessor may be used only on an Eddystone-UID reading and returns its payload |
| Beacon.BeaconData.GetEddystoneUrl | lib/BLEBeaconParser/src/BeaconData.h:203-205 | the URL accessor may be used only on an Eddystone-URL reading and returns its payload |
| Beacon.BeaconData.GetEddystoneTlm | lib/BLEBeaconParser/src/BeaconData.h:210-212 | the TLM accessor may be used only on an Eddystone-TLM reading and returns its payload |
| Beacon.BeaconData.GetAltBeacon | lib/BLEBeaconParser/src/BeaconData.h:217-219 | the AltBeacon accessor may be used only on an AltBeacon reading and returns its payload |
| Beacon.Init | lib/BLEBeaconParser/src/BeaconData.h:93-96 | a fresh result is of type UNKNOWN (value 0) and not valid |
| Beacon.Copy | lib/BLEBeaconParser/src/BeaconData.h:119-140 | the copy constructor's per-type switch copies the tag, the flag and the active payload, so the copy equals the original |
| Beacon.Assign | lib/BLEBeaconParser/src/BeaconData.h:145-184 | after assignment the target equals the source, whether or not the two are the same object |
| Beacon.SelfAssignmentKeeps | lib/BLEBeaconParser/src/BeaconData.h:145-184 | assigning an object to itself leaves it as it was, whether the self-check skips the work or the copy runs |
| Beacon.Commit | lib/BLEBeaconParser/src/parsers/iBeaconParser.cpp:39-65 | a decoder's return value equals the `valid` it leaves; on failure the tag and payload are untouched; on success the payload is the decoded one and the tag is not UNKNOWN |
| IBeaconParser.FindAppleManufacturerData | lib/BLEBeaconParser/src/parsers/iBeaconParser.cpp:89-132 | the Apple search is `findManufacturerData` for company 0x004C |
| IBeaconParser.CanParseFound | lib/BLEBeaconParser/src/parsers/iBeaconParser.cpp:18-33 | given what the search returned, `canParse` holds exactly when a window of at least two bytes starts `02 15`; it faults at `len` exactly when the search faulted or the window starts `02` and its second byte is index `len` |
| IBeaconParser.CanParse | lib/BLEBeaconParser/src/parsers/iBeaconParser.cpp:18-33 | `canParse` holds exactly when the Apple record's window has at least two bytes and starts `02 15`; it faults only as written, at `len`, and exactly when the Apple search faults or the window starts `02` and its second byte is index `len` |
| IBeaconParser.ParseFound | lib/BLEBeaconParser/src/parsers/iBeaconParser.cpp:35-66 | given what the search returned, `parse` declines exactly when there is no window of 23 bytes starting `02 15`; it faults exactly when the search faulted or such a window's TX power byte is index `len`; otherwise the reading is laid out as in the window |
| IBeaconParser.Parse | lib/BLEBeaconParser/src/parsers/iBeaconParser.cpp:35-66 | `parse` declines exactly when there is no Apple window of at least 23 bytes starting with the prefix, and faults exactly when the search faults or that window's byte 22 is index `len`; a reading's UUID text, big-endian major and minor, and signed TX power are those of window bytes 2-17, 18-19, 20-21 and 22 |
| IBeaconParser.ParseImpliesCanParse | lib/BLEBeaconParser/src/BLEBeaconParser.cpp:24-29 | whatever `parse` reads, `canParse` accepts, so the dispatcher's guard never hides an iBeacon |
| IBeaconParser.Packet | lib/BLEBeaconParser/src/parsers/iBeaconParser.cpp:35-66 | a transmitter's iBeacon advertisement is a single 27-byte record whose length byte covers the rest of the buffer |
| IBeaconParser.PacketRoundTrip | lib/BLEBeaconParser/src/parsers/iBeaconParser.cpp:35-66 | decoding a transmitter's iBeacon advertisement gives back its UUID, major, minor and TX power under both revisions, and the UUID text reads back as the UUID bytes |
| IBeaconParser.TxPowerReadPastBuffer | lib/BLEBeaconParser/src/parsers/iBeaconParser.cpp:61 | as written, an Apple record of `ad_len` 25 that ends the buffer passes the 23-byte check and the TX power read lands on index `len`; corrected, it is declined |
| IBeaconParser.PrefixReadPastBuffer | lib/BLEBeaconParser/src/parsers/iBeaconParser.cpp:27-32 | as written, an Apple record holding one byte after the company ID makes `canParse` read the second prefix byte at index `len`; corrected, it declines |
| AltBeaconParser.FindRadiusManufacturerData | lib/BLEBeaconParser/src/parsers/AltBeaconParser.cpp:74-117 | the Radius search is `findManufacturerData` for company 0x0118 |
| AltBeaconParser.CanParseFound | lib/BLEBeaconParser/src/parsers/AltBeaconParser.cpp:18-33 | given what the search returned, `canParse` holds exactly when a window of at least two bytes starts `BE AC`; it faults at `len` exactly when the search faulted or the window starts `BE` and its second byte is index `len` |
| AltBeaconParser.CanParse | lib/BLEBeaconParser/src/parsers/AltBeaconParser.cpp:18-33 | `canParse` holds exactly when the Radius record's window has at least two bytes and starts `BE AC`; it faults only as written, at `len`, and exactly when the Radius search faults or the window starts `BE` and its second byte is index `len` |
| AltBeaconParser.ParseFound | lib/BLEBeaconParser/src/parsers/AltBeaconParser.cpp:35-72 | given what the search returned, `parse` declines exactly when there is no window of 24 bytes starting `BE AC`; it faults exactly when the search faulted or such a window's byte 23 is index `len`; otherwise the reading is laid out as in the window |
| AltBeaconParser.Parse | lib/BLEBeaconParser/src/parsers/AltBeaconParser.cpp:35-72 | `parse` declines exactly when there is no Radius window of at least 24 bytes starting with the code, and faults exactly when the search faults or that window's byte 23 is index `len`; a reading's ID, signed reference RSSI, reserved byte, big-endian major and minor are window bytes 2-17, 18, 19, 20-21 and 22-23 |
| AltBeaconParser.ParseImpliesCanParse | lib/BLEBeaconParser/src/BLEBeaconParser.cpp:31-36 | whatever `parse` reads, `canParse` accepts |
| AltBeaconParser.Packet | lib/BLEBeaconParser/src/parsers/AltBeaconParser.cpp:35-72 | a transmitter's AltBeacon advertisement is a single 28-byte record whose length byte covers the rest of the buffer |
| AltBeaconParser.PacketRoundTrip | lib/BLEBeaconParser/src/parsers/AltBeaconParser.cpp:35-72 | decoding a transmitter's AltBeacon advertisement gives back its ID, major, minor, RSSI and reserved byte under both revisions |
| AltBeaconParser.MinorReadPastBuffer | lib/BLEBeaconParser/src/parsers/AltBeaconParser.cpp:67 | as written, a Radius record of `ad_len` 26 that ends the buffer passes the 24-byte check and the minor's low byte is read at index `len`; corrected, it is declined |
| AltBeaconParser.CodeReadPastBuffer | lib/BLEBeaconParser/src/parsers/AltBeaconParser.cpp:27-32 | as written, a Radius record holding one byte after the company ID makes `canParse` read index `len`; corrected, it declines |
| EddystoneParser.FindEddystoneServiceData | lib/BLEBeaconParser/src/parsers/EddystoneParser.cpp:73-118 | a found window starts at the `AA FE` UUID of a Service Data record, holds `ad_len - 1` bytes and never leaves the buffer; a fault happens only as written, at `len` |
| EddystoneParser.CanParse | lib/BLEBeaconParser/src/parsers/EddystoneParser.cpp:28-33 | `canParse` holds exactly when the Eddystone search finds a record and faults exactly when it does |
| EddystoneParser.DecodeUrlScheme | lib/BLEBeaconParser/src/parsers/EddystoneParser.cpp:214-228 | a scheme code has an expansion exactly when it is at most 0x03 |
| EddystoneParser.SchemeCode | lib/BLEBeaconParser/src/parsers/EddystoneParser.cpp:214-228 | the encoder's scheme table is the inverse of the decoder's: a code it picks decodes to the scheme asked for |
| EddystoneParser.SchemeCodeOfScheme | lib/BLEBeaconParser/src/parsers/EddystoneParser.cpp:214-228 | the four schemes are distinct, so each decodes from exactly one code |
| EddystoneParser.DecodeUrlSuffix | lib/BLEBeaconParser/src/parsers/EddystoneParser.cpp:230-264 | a byte has a suffix expansion exactly when it is at most 0x0D |
| EddystoneParser.SuffixCode | lib/BLEBeaconParser/src/parsers/EddystoneParser.cpp:230-264 | the encoder's suffix table is the inverse of the decoder's |
| EddystoneParser.SuffixCodeOfSuffix | lib/BLEBeaconParser/src/parsers/EddystoneParser.cpp:230-264 | the fourteen expansions are distinct, so each decodes from exactly one code |
| EddystoneParser.ParseUid | lib/BLEBeaconParser/src/parsers/EddystoneParser.cpp:120-142 | a UID frame decodes exactly when it has at least 17 bytes, and the signed TX power, 10-byte namespace and 6-byte instance are, in order, its first 17 bytes |
| EddystoneParser.Piece | lib/BLEBeaconParser/src/parsers/EddystoneParser.cpp:163-169 | every URL byte contributes at least one character: its expansion or itself |
| EddystoneParser.ExpandAppend | lib/BLEBeaconParser/src/parsers/EddystoneParser.cpp:162-170 | the URL body's expansion distributes over concatenation |
| EddystoneParser.ExpandVerbatim | lib/BLEBeaconParser/src/parsers/EddystoneParser.cpp:167-168 | bytes above 0x0D are copied into the URL as characters, one for one |
| EddystoneParser.AppendBody | lib/BLEBeaconParser/src/parsers/EddystoneParser.cpp:162-170 | the `parseURL` loop only appends: the text it starts with stays a prefix, and every byte it visits adds at least one character |
| EddystoneParser.AppendBodyExpands | lib/BLEBeaconParser/src/parsers/EddystoneParser.cpp:162-170 | the append loop leaves the text it started with followed by the expansion of every remaining byte |
| EddystoneParser.ParseUrl | lib/BLEBeaconParser/src/parsers/EddystoneParser.cpp:144-176 | a URL frame decodes exactly when it has at least 2 bytes and a known scheme code, and the URL is that scheme followed by the expansion of bytes 2 onward; the TX power is byte 0 |
| EddystoneParser.ParseTlm | lib/BLEBeaconParser/src/parsers/EddystoneParser.cpp:178-212 | a TLM frame decodes exactly when it has at least 13 bytes and version 0; the battery voltage, raw temperature and advertisement count re-encode to bytes 1-2, 3-4 and 5-8; the uptime is the big-endian value of bytes 9-12 divided by ten |
| EddystoneParser.ParseFrame | lib/BLEBeaconParser/src/parsers/EddystoneParser.cpp:57-70 | the frame-type switch: a decoded payload's tag is UID, URL or TLM according to the type byte, it fails exactly when that frame's decoder fails or the type is none of the three, and a decoded payload is exactly what `parseUID`, `parseURL` or `parseTLM` returned |
| EddystoneParser.Parse | lib/BLEBeaconParser/src/parsers/EddystoneParser.cpp:35-71 | `parse` faults exactly when the search does; when the search does not fault, the result is the frame decoding of window byte 2 and the bytes after it if the window has at least 3 bytes, and a decline otherwise, so a decodable Eddystone record is read wherever it sits in the buffer |
| EddystoneParser.Packet | lib/BLEBeaconParser/src/parsers/EddystoneParser.cpp:35-71 | a transmitter's Eddystone advertisement is one Service Data record whose length byte covers the rest of the buffer |
| EddystoneParser.PacketDecodes | lib/BLEBeaconParser/src/parsers/EddystoneParser.cpp:35-71 | for any frame, `canParse` accepts the advertisement and `parse` hands the frame decoder exactly the frame type and frame bytes |
| EddystoneParser.UidFrame | lib/BLEBeaconParser/src/parsers/EddystoneParser.cpp:120-142 | a UID frame is exactly 17 bytes |
| EddystoneParser.UidRoundTrip | lib/BLEBeaconParser/src/parsers/EddystoneParser.cpp:120-142 | a UID frame a transmitter builds decodes to its namespace, instance and TX power |
| EddystoneParser.UrlRoundTrip | lib/BLEBeaconParser/src/parsers/EddystoneParser.cpp:144-176 | a URL frame with a known scheme decodes to the scheme followed by the expansion of its body, and to its TX power |
| EddystoneParser.TlmFrame | lib/BLEBeaconParser/src/parsers/EddystoneParser.cpp:178-212 | a TLM frame is exactly 13 bytes |
| EddystoneParser.TlmRoundTrip | lib/BLEBeaconParser/src/parsers/EddystoneParser.cpp:178-212 | a TLM frame decodes to its battery voltage, raw temperature and advertisement count, and to its uptime in whole seconds |
| EddystoneParser.UuidReadPastBuffer | lib/BLEBeaconParser/src/parsers/EddystoneParser.cpp:98-100 | as written, a two-byte Service Data record that ends the buffer makes the Eddystone search read the UUID's high byte at index `len`; corrected, it is skipped |
| BLEBeaconParser.TryIBeacon | lib/BLEBeaconParser/src/BLEBeaconParser.cpp:24-29 | the iBeacon turn yields an iBeacon reading exactly when the iBeacon decoder reads one; it faults exactly when `canParse` faults, or `canParse` holds and `parse` faults, and otherwise declines cleanly |
| BLEBeaconParser.TryAltBeacon | lib/BLEBeaconParser/src/BLEBeaconParser.cpp:31-36 | the AltBeacon turn yields an AltBeacon reading exactly when the AltBeacon decoder reads one; it faults exactly when `canParse` faults, or `canParse` holds and `parse` faults, and otherwise declines cleanly |
| BLEBeaconParser.TryEddystone | lib/BLEBeaconParser/src/BLEBeaconParser.cpp:38-43 | because `canParse` runs the same search, the Eddystone turn is exactly the Eddystone decoder's outcome and yields only UID, URL or TLM readings |
| BLEBeaconParser.Parse | lib/BLEBeaconParser/src/BLEBeaconParser.cpp:10-46 | a null or empty buffer is refused with an unknown, invalid result; the returned flag equals `valid`; a false return leaves an unknown, invalid result; a true one leaves a typed, well-formed payload; a fault happens only as written, at `len`, and exactly when the iBeacon turn faults, or it declines and the AltBeacon turn faults, or both decline and the Eddystone turn faults |
| BLEBeaconParser.IBeaconReadingFromIBeacon | lib/BLEBeaconParser/src/BLEBeaconParser.cpp:24-29 | an iBeacon result is what the iBeacon decoder read from the same buffer |
| BLEBeaconParser.AltBeaconReadingFromAltBeacon | lib/BLEBeaconParser/src/BLEBeaconParser.cpp:31-36 | an AltBeacon result means the iBeacon turn declined and the AltBeacon decoder read exactly that |
| BLEBeaconParser.EddystoneReadingFromEddystone | lib/BLEBeaconParser/src/BLEBeaconParser.cpp:38-43 | an Eddystone result means both earlier turns declined and the Eddystone decoder read exactly that payload |
| BLEBeaconParser.IBeaconWins | lib/BLEBeaconParser/src/BLEBeaconParser.cpp:24-29 | the first turn of `parse`: when the iBeacon decoder reads a buffer, that reading is the result, whatever else the buffer holds |
| BLEBeaconParser.AltBeaconSecond | lib/BLEBeaconParser/src/BLEBeaconParser.cpp:31-36 | the second turn of `parse`: when the iBeacon turn declines cleanly and the AltBeacon decoder reads the buffer, that reading is the result |
| BLEBeaconParser.EddystoneLast | lib/BLEBeaconParser/src/BLEBeaconParser.cpp:38-43 | the third turn of `parse`: when both earlier turns decline cleanly, the Eddystone decoder's reading is the result |
| BLEBeaconParser.NothingAccepted | lib/BLEBeaconParser/src/BLEBeaconParser.cpp:45 | when no decoder reads the buffer, the call returns false with an unknown, invalid result |
| BLEBeaconParser.NoManufacturerRecord | lib/BLEBeaconParser/src/BLEBeaconParser.cpp:24-36 | without an Apple or Radius record both manufacturer turns decline without a fault |
| BLEBeaconParser.CorrectedNeverFaults | lib/BLEBeaconParser/src/BLEBeaconParser.cpp:10-46 | with the corrected windows, no input makes the dispatcher read past the buffer |
| BLEBeaconParser.IBeaconPacketReads | lib/BLEBeaconParser/src/BLEBeaconParser.cpp:24-29 | a transmitter's iBeacon advertisement is reported as that iBeacon, valid |
| BLEBeaconParser.AltBeaconPacketReads | lib/BLEBeaconParser/src/BLEBeaconParser.cpp:31-36 | a transmitter's AltBeacon advertisement passes the iBeacon turn and is reported as that AltBeacon |
| BLEBeaconParser.EddystonePacketReads | lib/BLEBeaconParser/src/BLEBeaconParser.cpp:38-45 | a transmitter's Eddystone advertisement is reported as its frame decodes, or refused when the frame does not decode |
| BLEBeaconParser.UidPacketReads | lib/BLEBeaconParser/src/parsers/EddystoneParser.cpp:120-142 | an Eddystone-UID advertisement is reported as its namespace, instance and TX power |
| BLEBeaconParser.UrlPacketReads | lib/BLEBeaconParser/src/parsers/EddystoneParser.cpp:144-176 | an Eddystone-URL advertisement is reported as its expanded URL and TX power |
| BLEBeaconParser.TlmPacketReads | lib/BLEBeaconParser/src/parsers/EddystoneParser.cpp:178-212 | an Eddystone-TLM advertisement is reported as its telemetry, the uptime in seconds |
| BLEBeaconParser.RefusesNullAndEmpty | test/test_helpers.cpp:61-80 | a null buffer and an empty buffer are both refused with an invalid result |
| BLEBeaconParser.UnknownAdvertisement | test/test_helpers.cpp:47-59 | the unknown-beacon test packet is refused with an UNKNOWN, invalid result |
| BLEBeaconParser.TruncatedAppleRecordFaults | lib/BLEBeaconParser/src/BLEBeaconParser.cpp:72-74 | as written, a truncated Apple record at the end of the buffer makes the whole call read index `len`; corrected, the call declines |
| Vectors.TestUuidText | test/test_iBeacon.cpp:30-31 | the test UUID's bytes render as "5F2DD896-B886-4549-AE01-E41ACD7A354A" |
| Vectors.IBeaconTest | test/test_iBeacon.cpp:21-35 | the iBeacon test packet reads as that UUID text, major 1, minor 2, TX power -59 |
| Vectors.IBeaconWrongCompanyTest | test/test_iBeacon.cpp:42-48 | the packet with a foreign company ID is refused |
| Vectors.IBeaconWrongPrefixTest | test/test_iBeacon.cpp:51-56 | the packet with prefix `03 16` is refused |
| Vectors.IBeaconShortDataTest | test/test_iBeacon.cpp:59-61 | the five-byte packet whose record does not fit is refused |
| Vectors.OneRecordOnly | test/test_iBeacon.cpp:37-62 | a single 27-byte manufacturer record that is neither an iBeacon nor an AltBeacon is refused |
| Vectors.AltBeaconTest | test/test_AltBeacon.cpp:22-42 | the AltBeacon test packet reads as its ID, reference RSSI -59, reserved 0, major 1, minor 2 |
| Vectors.EddystoneUidTest | test/test_Eddystone.cpp:52-72 | the UID test packet reads as TX power -16 and the expected namespace and instance |
| Vectors.ExampleBody | test/test_Eddystone.cpp:25-34 | the URL body "example" then `00` expands to "example.com/" |
| Vectors.EddystoneUrlTest | test/test_Eddystone.cpp:74-88 | the URL test packet reads as "http://www.example.com/" with TX power -16 |
| Vectors.TlmTestFrame | test/test_Eddystone.cpp:40-50 | the TLM test frame decodes to 3000 mV, raw temperature 0x1900, 100 advertisements, 100 seconds |
| Vectors.EddystoneTlmTest | test/test_Eddystone.cpp:90-105 | the TLM test packet reads as that telemetry, and its temperature is 25.0 degrees |

## Left out

- The Bluefruit adapter (`BluefruitAdapter.h`, `BluefruitAdapter.cpp`) and
  both example programs. They only feed buffers to the parser and print the
  results. The example programs are not part of this model.
- `test/mock_arduino.h` and `test/test_main.cpp` are not part of this model.
  They are test scaffolding: an Arduino `String` stand-in and a test runner.
- Beacon.Celsius: the source stores `temp_raw / 256.0f` as a `float`. The
  model keeps the raw `int16_t` and gives the exact quotient as a `real`;
  single-precision rounding is not modelled.
- `Beacon.BeaconData`'s placement-new construction, its destructor, and what
  happens to union members that are not active are not modelled. The
  datatype has exactly one active payload, and the tag is computed from it.
- In the source, `BLEBeaconParser::parse` resets only `type` and `valid`.
  A decoder that fails may already have written into the union, as
  `parseURL` does with the TX power at
  lib/BLEBeaconParser/src/parsers/EddystoneParser.cpp:151. The model does
  not track those bytes: once the type is UNKNOWN they cannot be observed
  through the accessors. So a false return is modelled as `Beacon.Init()`.
- A reading past the buffer is undefined behaviour in C++. The model stops
  at the first such read and reports its index. Whatever the hardware would
  have returned, and any fields written before the read, are not modelled.
- A null `data` with a non-zero `len` is modelled as `None`. The source
  checks `data == nullptr` before it looks at `len`.
- `sprintf` is modelled only as the `%02X` rendering of one byte.
- The URL decoder appends `(char)frame_data[i]`. The model reads the byte
  as the code point 0-255 and does not model the signedness of `char` or
  the `String` encoding.
- Two helper tests of the repository disagree about the window
  `findManufacturerData` reports:
  - `test/test_helpers.cpp:25` expects 3 bytes, which is what the code
    computes;
  - `lib/BLEBeaconParser/test/test_helpers.cpp:18` expects 1 byte, though
    its record holds 2.

  The model follows the code: `Scanner.HelperTestWindows` states the code's
  3 and the record's 2. The library test's 1 matches neither, and no
  contract states it.
- The walk's `uint8_t pos` cannot wrap around. The guard ensures
  `pos + ad_len < len <= 255` before `pos += ad_len + 1`, so the model uses
  unbounded naturals for it.

## Findings

| source | as written | input that shows it | evidently intended | confidence | as-written member | corrected member |
|---|---|---|---|---|---|---|
| lib/BLEBeaconParser/src/BLEBeaconParser.cpp:72-74 | the key test runs for `ad_len >= 2` and reads `data[pos + 3]`, the fourth byte of the record | `02 FF 4C`: the company ID's high byte is read at index 3 == `len` | read the two key bytes only when the record holds them, `ad_len >= 3` | not executed | Scanner.KeyReadPastBuffer | Scanner.CorrectedScanStaysInRecord |
| lib/BLEBeaconParser/src/BLEBeaconParser.cpp:81 | the manufacturer window is `ad_len - 2` bytes from `pos + 4`, one byte past the record | `05 FF 4C 00 01 02 03 01 02 03`: the window is `01 02 03`, taking in the next record's length byte | `ad_len - 3`: the length byte counts the type and the company ID | not executed | Scanner.ManufacturerWindowOverrunsRecord | Scanner.FindManufacturerData |
| lib/BLEBeaconParser/src/BLEBeaconParser.cpp:127 | the service window is `ad_len` bytes from `pos + 2`, one byte past the record | `03 16 AA FE`: a 3-byte window at index 2 of a 4-byte buffer | `ad_len - 1`, as the Eddystone copy computes | not executed | Scanner.ServiceWindowOverrunsRecord | Scanner.FindServiceData |
| lib/BLEBeaconParser/src/parsers/iBeaconParser.cpp:61 | the 23-byte check uses the overlong window, so the TX power read `mfg_data[22]` can be index `len` | an Apple record of `ad_len` 25 with prefix `02 15` ending a 26-byte buffer | decline the record, which holds only 22 bytes after the company ID | not executed | IBeaconParser.TxPowerReadPastBuffer | BLEBeaconParser.CorrectedNeverFaults |
| lib/BLEBeaconParser/src/parsers/iBeaconParser.cpp:27-32 | `canParse` accepts a window of 2 bytes that really holds 1 and reads `mfg_data[1]` at index `len` | `04 FF 4C 00 02` | decline it | not executed | IBeaconParser.PrefixReadPastBuffer | IBeaconParser.CanParse |
| lib/BLEBeaconParser/src/parsers/AltBeaconParser.cpp:67 | the 24-byte check uses the overlong window, so the minor's low byte `mfg_data[23]` can be index `len` | a Radius record of `ad_len` 26 with code `BE AC` ending a 27-byte buffer | decline the record, which holds only 23 bytes after the company ID | not executed | AltBeaconParser.MinorReadPastBuffer | AltBeaconParser.Parse |
| lib/BLEBeaconParser/src/parsers/AltBeaconParser.cpp:27-32 | `canParse` accepts a window of 2 bytes that really holds 1 and reads `mfg_data[1]` at index `len` | `04 FF 18 01 BE` | decline it | not executed | AltBeaconParser.CodeReadPastBuffer | AltBeaconParser.CanParse |
| lib/BLEBeaconParser/src/parsers/EddystoneParser.cpp:98-100 | the Eddystone copy makes the same `ad_len >= 2` key test and reads `data[pos + 3]` | `02 16 AA`: the UUID's high byte is read at index 3 == `len` | `ad_len >= 3` | not executed | EddystoneParser.UuidReadPastBuffer | EddystoneParser.FindEddystoneServiceData |

Each as-written member states the discrepancy on its input under
`Revision.AsWritten` and states the declined or in-record behaviour under
`Revision.Corrected`. The corrected members state, for every input, that
under `Revision.Corrected` the window stays within the record and nothing is
read past `len`. Every search, decoder and the dispatcher take the revision
as a parameter. The code as written and the corrected code are therefore the
same definitions with a different revision.
