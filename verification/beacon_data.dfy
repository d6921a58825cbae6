/**
  The unified decoding result. The source keeps a type tag, a validity flag
  and a C union whose active member must agree with the tag; here the union
  is a datatype, so the tag is computed from the payload's constructor and no
  payload can be reached through another variant's accessor.
 */
module Beacon {
  import opened Bytes
  import opened Reads

  /** The `BeaconType` enumeration, in declaration order. */
  datatype BeaconType =
    | TypeUnknown
    | TypeIBeacon
    | TypeEddystoneUid
    | TypeEddystoneUrl
    | TypeEddystoneTlm
    | TypeAltBeacon

  /** The enumerator's integer value: UNKNOWN is 0, the rest follow in order. */
  function Ordinal(t: BeaconType): (n: nat)
    ensures n < 6
    ensures OfOrdinal(n) == Some(t)
  {
    match t
    case TypeUnknown => 0
    case TypeIBeacon => 1
    case TypeEddystoneUid => 2
    case TypeEddystoneUrl => 3
    case TypeEddystoneTlm => 4
    case TypeAltBeacon => 5
  }

  /** The enumerator with a given integer value, if any. */
  function OfOrdinal(n: nat): (r: Option<BeaconType>)
    ensures r.Some? <==> n < 6
  {
    if n == 0 then Some(TypeUnknown)
    else if n == 1 then Some(TypeIBeacon)
    else if n == 2 then Some(TypeEddystoneUid)
    else if n == 3 then Some(TypeEddystoneUrl)
    else if n == 4 then Some(TypeEddystoneTlm)
    else if n == 5 then Some(TypeAltBeacon)
    else None
  }

  /** The six enumerators carry six distinct values. */
  lemma OrdinalInjective(a: BeaconType, b: BeaconType)
    ensures Ordinal(a) == Ordinal(b) ==> a == b
  {
    assert OfOrdinal(Ordinal(a)) == Some(a);
    assert OfOrdinal(Ordinal(b)) == Some(b);
  }

  datatype IBeaconData = IBeaconData(uuid: string, major: uint16, minor: uint16, txPower: int8)

  datatype EddystoneUidData = EddystoneUidData(namespaceId: seq<byte>, instanceId: seq<byte>, txPower: int8)

  datatype EddystoneUrlData = EddystoneUrlData(url: string, txPower: int8)

  /**
    Telemetry. The source stores the temperature as a float, `raw / 256.0`;
    the model keeps the signed 8.8 fixed-point raw value (see `Celsius`).
   */
  datatype EddystoneTlmData = EddystoneTlmData(batteryVoltage: uint16, temperatureRaw: int16, advCount: uint32, uptime: uint32)

  datatype AltBeaconData = AltBeaconData(id: seq<byte>, major: uint16, minor: uint16, txPower: int8, mfgReserved: byte)

  /** The union: exactly one payload, or none for an unknown reading. */
  datatype Payload =
    | Unknown
    | IBeacon(ibeacon: IBeaconData)
    | EddystoneUid(eddystoneUid: EddystoneUidData)
    | EddystoneUrl(eddystoneUrl: EddystoneUrlData)
    | EddystoneTlm(eddystoneTlm: EddystoneTlmData)
    | AltBeacon(altbeacon: AltBeaconData)
  {
    /** The tag that goes with this payload. */
    function Type(): BeaconType {
      match this
      case Unknown => TypeUnknown
      case IBeacon(_) => TypeIBeacon
      case EddystoneUid(_) => TypeEddystoneUid
      case EddystoneUrl(_) => TypeEddystoneUrl
      case EddystoneTlm(_) => TypeEddystoneTlm
      case AltBeacon(_) => TypeAltBeacon
    }

    /** The fixed-size arrays of the C structs have their sizes. */
    predicate WellFormed() {
      match this
      case IBeacon(d) => |d.uuid| == 36
      case EddystoneUid(d) => |d.namespaceId| == 10 && |d.instanceId| == 6
      case AltBeacon(d) => |d.id| == 16
      case _ => true
    }
  }

  /** The temperature in degrees Celsius the source computes from the 8.8 fixed-point value. */
  function Celsius(t: EddystoneTlmData): (c: real)
    ensures -128.0 <= c < 128.0
  {
    t.temperatureRaw as real / 256.0
  }

  datatype BeaconData = BeaconData(payload: Payload, valid: bool) {

    function Type(): BeaconType {
      payload.Type()
    }

    /** `getIBeacon()`, meaningful only for an iBeacon reading. */
    function GetIBeacon(): (d: IBeaconData)
      requires Type() == TypeIBeacon
      ensures payload == IBeacon(d)
    {
      payload.ibeacon
    }

    /** `getEddystoneUID()`, meaningful only for an Eddystone-UID reading. */
    function GetEddystoneUid(): (d: EddystoneUidData)
      requires Type() == TypeEddystoneUid
      ensures payload == EddystoneUid(d)
    {
      payload.eddystoneUid
    }

    /** `getEddystoneURL()`, meaningful only for an Eddystone-URL reading. */
    function GetEddystoneUrl(): (d: EddystoneUrlData)
      requires Type() == TypeEddystoneUrl
      ensures payload == EddystoneUrl(d)
    {
      payload.eddystoneUrl
    }

    /** `getEddystoneTLM()`, meaningful only for an Eddystone-TLM reading. */
    function GetEddystoneTlm(): (d: EddystoneTlmData)
      requires Type() == TypeEddystoneTlm
      ensures payload == EddystoneTlm(d)
    {
      payload.eddystoneTlm
    }

    /** `getAltBeacon()`, meaningful only for an AltBeacon reading. */
    function GetAltBeacon(): (d: AltBeaconData)
      requires Type() == TypeAltBeacon
      ensures payload == AltBeacon(d)
    {
      payload.altbeacon
    }
  }

  /** The default constructor: an unknown, invalid reading. */
  function Init(): (d: BeaconData)
    ensures d.Type() == TypeUnknown && Ordinal(d.Type()) == 0 && !d.valid
  {
    BeaconData(Unknown, false)
  }

  /** The copy constructor: tag and flag copied, then the active member only. */
  function Copy(other: BeaconData): (d: BeaconData)
    ensures d.Type() == other.Type() && d.valid == other.valid
    ensures d == other
  {
    var payload :=
      match other.payload
      case IBeacon(x) => IBeacon(x)
      case EddystoneUid(x) => EddystoneUid(x)
      case EddystoneUrl(x) => EddystoneUrl(x)
      case EddystoneTlm(x) => EddystoneTlm(x)
      case AltBeacon(x) => AltBeacon(x)
      case Unknown => Unknown;
    BeaconData(payload, other.valid)
  }

  /**
    The assignment operator. `aliased` says the target and the source are
    the same object, in which case the source skips all work.
   */
  function Assign(target: BeaconData, source: BeaconData, aliased: bool): (d: BeaconData)
    requires aliased ==> target == source
    ensures d == source
  {
    if aliased then target else Copy(source)
  }

  /** Self-assignment, whether the operator notices the aliasing or copies anyway, leaves the object as it was. */
  lemma SelfAssignmentKeeps(x: BeaconData, aliased: bool)
    ensures Assign(x, x, aliased) == x
  {
  }

  /**
    What a format decoder's `parse` does to the caller's result: on success it
    stores the payload and sets the tag and `valid`; on failure it clears
    `valid` and leaves the tag and the payload alone. The boolean is `parse`'s
    return value.
   */
  function Commit(result: BeaconData, outcome: Option<Payload>): (r: (bool, BeaconData))
    requires outcome.Some? ==> outcome.value != Unknown
    ensures r.0 == r.1.valid
    ensures r.0 <==> outcome.Some?
    ensures !r.0 ==> r.1.payload == result.payload && r.1.Type() == result.Type()
    ensures r.0 ==> r.1.payload == outcome.value && r.1.Type() != TypeUnknown
  {
    match outcome
    case None => (false, result.(valid := false))
    case Some(p) => (true, BeaconData(p, true))
  }
}
