/**
 * The credential of an attendance terminal: `<deviceId>.<secret>`, of which the server keeps the id
 * and a digest of the secret.
 */
module DeviceTokens {
  import opened Wrappers

  type Id = string

  datatype Device = Device(id: Id, companyId: Id, serialNumber: string, secretHash: string, isActive: bool, deleted: bool)

  datatype Error = InvalidCredential | Deactivated | SerialTaken

  const SEPARATOR := '.'

  /** `token.indexOf('.')`. */
  function IndexOf(token: string): (r: Option<nat>)
    ensures r.Some? ==> r.value < |token| && token[r.value] == SEPARATOR && SEPARATOR !in token[..r.value]
    ensures r.None? ==> SEPARATOR !in token
  {
    if token == "" then None
    else if token[0] == SEPARATOR then Some(0)
    else
      match IndexOf(token[1..])
      case None => None
      case Some(k) => assert token[..k + 1] == [token[0]] + token[1..][..k]; Some(k + 1)
  }

  function Mint(deviceId: Id, secret: string): string {
    deviceId + ([SEPARATOR] + secret)
  }

  /** The two halves of a presented token; both must be there. */
  function SplitToken(token: string): Option<(Id, string)> {
    match IndexOf(token)
    case None => None
    case Some(k) => if k == 0 || token[k + 1..] == "" then None else Some((token[..k], token[k + 1..]))
  }

  /** A token splits into exactly the id and secret it was minted from, and only minted tokens split. */
  lemma SplitInvertsMintExactly(token: string, deviceId: Id, secret: string)
    ensures SplitToken(token) == Some((deviceId, secret))
       <==> token == Mint(deviceId, secret) && deviceId != "" && secret != "" && SEPARATOR !in deviceId
  {
    var k := IndexOf(token);
    if SplitToken(token) == Some((deviceId, secret)) {
      assert token == token[..k.value] + ([SEPARATOR] + token[k.value + 1..]);
    }
    if token == Mint(deviceId, secret) && SEPARATOR !in deviceId {
      assert token[|deviceId|] == SEPARATOR;
      assert k == Some(|deviceId|);
      assert token[..|deviceId|] == deviceId && token[|deviceId| + 1..] == secret;
    }
  }

  /** `findFirst` by id among devices that are not deleted. */
  function Find(devices: seq<Device>, id: Id): (r: Option<Device>)
    ensures r.Some? ==> r.value in devices && r.value.id == id && !r.value.deleted
    ensures r.None? ==> forall d :: d in devices ==> !(d.id == id && !d.deleted)
  {
    if devices == [] then None
    else if devices[0].id == id && !devices[0].deleted then Some(devices[0])
    else Find(devices[1..], id)
  }

  /** An id that is not known and a wrong secret get the same answer; only the right secret learns of a deactivation. */
  function Authenticate(devices: seq<Device>, hash: string -> string, token: string): Result<Device, Error> {
    match SplitToken(token)
    case None => Err(InvalidCredential)
    case Some((deviceId, secret)) =>
      var device := Find(devices, deviceId);
      if device.None? || hash(secret) != device.value.secretHash then Err(InvalidCredential)
      else if !device.value.isActive then Err(Deactivated)
      else Ok(device.value)
  }

  predicate UniqueIds(devices: seq<Device>) {
    forall i, j :: 0 <= i < j < |devices| ==> devices[i].id != devices[j].id
  }

  lemma FindIsUnique(devices: seq<Device>, d: Device)
    requires UniqueIds(devices) && d in devices && !d.deleted
    ensures Find(devices, d.id) == Some(d)
  {}

  /**
   * A token authenticates a device exactly when it is the device's id and a secret with the stored
   * digest, and the device is active and not deleted.
   */
  lemma AuthenticatesExactly(devices: seq<Device>, hash: string -> string, token: string, d: Device)
    requires UniqueIds(devices) && d in devices && d.id != "" && SEPARATOR !in d.id
    ensures Authenticate(devices, hash, token) == Ok(d)
       <==> !d.deleted && d.isActive && exists secret :: secret != "" && token == Mint(d.id, secret) && hash(secret) == d.secretHash
  {
    if Authenticate(devices, hash, token) == Ok(d) {
      var parts := SplitToken(token).value;
      SplitInvertsMintExactly(token, parts.0, parts.1);
    }
    if !d.deleted && d.isActive && exists secret :: secret != "" && token == Mint(d.id, secret) && hash(secret) == d.secretHash {
      var secret :| secret != "" && token == Mint(d.id, secret) && hash(secret) == d.secretHash;
      SplitInvertsMintExactly(token, d.id, secret);
      FindIsUnique(devices, d);
    }
  }

  /** Without the right secret the answer is one and the same, whatever devices there are. */
  lemma WrongSecretLearnsNothing(devices: seq<Device>, hash: string -> string, deviceId: Id, secret: string)
    requires SEPARATOR !in deviceId
    requires forall d :: d in devices && d.id == deviceId ==> hash(secret) != d.secretHash
    ensures Authenticate(devices, hash, Mint(deviceId, secret)) == Err(InvalidCredential)
  {
    SplitInvertsMintExactly(Mint(deviceId, secret), deviceId, secret);
    if SplitToken(Mint(deviceId, secret)).Some? {
      var parts := SplitToken(Mint(deviceId, secret)).value;
      SplitInvertsMintExactly(Mint(deviceId, secret), parts.0, parts.1);
      assert Mint(deviceId, secret)[|deviceId|] == SEPARATOR;
      assert |parts.0| == |deviceId|;
      assert Mint(deviceId, secret)[..|deviceId|] == deviceId && Mint(deviceId, secret)[|deviceId| + 1..] == secret;
    }
  }

  /** What the holder of a device's id and some secret is told: that it is deactivated, only with the right secret. */
  lemma AnswersExactly(devices: seq<Device>, hash: string -> string, d: Device, secret: string)
    requires UniqueIds(devices) && d in devices && d.id != "" && SEPARATOR !in d.id && secret != ""
    ensures var answer := Authenticate(devices, hash, Mint(d.id, secret));
            && (answer == Ok(d) <==> !d.deleted && hash(secret) == d.secretHash && d.isActive)
            && (answer == Err(Deactivated) <==> !d.deleted && hash(secret) == d.secretHash && !d.isActive)
            && (answer == Err(InvalidCredential) <==> d.deleted || hash(secret) != d.secretHash)
  {
    SplitInvertsMintExactly(Mint(d.id, secret), d.id, secret);
    if !d.deleted { FindIsUnique(devices, d); }
  }

  class DeviceRegistry {
    const hash: string -> string
    var devices: seq<Device>

    ghost predicate Valid()
      reads this
    {
      UniqueIds(devices) && forall d :: d in devices ==> d.id != "" && SEPARATOR !in d.id
    }

    constructor (hash: string -> string)
      ensures Valid() && this.hash == hash && devices == []
    {
      this.hash, devices := hash, [];
    }

    /** Registers a terminal under a fresh id and secret; the returned token authenticates it. */
    method Register(companyId: Id, serialNumber: string, id: Id, secret: string) returns (r: Result<string, Error>)
      requires Valid() && id != "" && SEPARATOR !in id && secret != "" && forall d :: d in devices ==> d.id != id
      modifies this`devices
      ensures Valid()
      ensures r.Err? <==> exists d :: d in old(devices) && d.companyId == companyId && d.serialNumber == serialNumber && !d.deleted
      ensures r.Err? ==> devices == old(devices)
      ensures r.Ok? ==> devices == old(devices) + [Device(id, companyId, serialNumber, hash(secret), true, false)]
      ensures r.Ok? ==> Authenticate(devices, hash, r.value) == Ok(devices[|devices| - 1])
    {
      if exists d :: d in devices && d.companyId == companyId && d.serialNumber == serialNumber && !d.deleted {
        return Err(SerialTaken);
      }
      var device := Device(id, companyId, serialNumber, hash(secret), true, false);
      devices := devices + [device];
      AuthenticatesExactly(devices, hash, Mint(id, secret), device);
      return Ok(Mint(id, secret));
    }
  }
}
