/**
 * The instance file of settings.cpp: CreateInstanceFile writes a small JSON
 * document, a zero byte and a packed 40-byte HVKSignature (the magic
 * "HVKSIG", a little-endian uint16 version and the SHA-256 of the JSON);
 * ValidateInstanceFile reads it back and checks every part. SHA-256 (FIPS
 * 180-4) is computed by BCrypt and is a parameter here, `sha`, which
 * yields None when BCrypt fails.
 */
module Instance {
  import Json

  datatype Option<T> = None | Some(value: T)

  /** A SHA-256 digest. */
  type Digest = s: seq<bv8> | |s| == 32 witness seq(32, _ => 0 as bv8)

  /** "HVKSIG". */
  const Magic: seq<bv8> := [0x48, 0x56, 0x4B, 0x53, 0x49, 0x47]

  /** sizeof(HVKSignature) under #pragma pack(1): 6 + 2 + 32. */
  const SignatureSize: nat := 40

  /** The packed signature: magic, version 1 as a little-endian uint16, and the hash. */
  function Signature(hash: Digest): (s: seq<bv8>)
    ensures |s| == SignatureSize
  {
    Magic + [0x01, 0x00] + hash
  }

  /** The file as CreateInstanceFile writes it: the JSON, the separator, the signature. */
  function InstanceBytes(json: seq<bv8>, hash: Digest): (data: seq<bv8>)
    ensures |data| == |json| + 1 + SignatureSize
  {
    json + [0] + Signature(hash)
  }

  /** The bytes of the writer's std::string, one per char. */
  function Bytes(text: seq<char>): (b: seq<bv8>)
    ensures |b| == |text|
  {
    seq(|text|, i requires 0 <= i < |text| => (text[i] as int % 256) as bv8)
  }

  /** The JSON CreateInstanceFile signs: app, uuid and created_unix. */
  function InstanceJson(uuid: seq<char>, createdUnix: nat): seq<bv8>
  {
    Bytes(Json.ExportText(Json.InstanceDocument(uuid, createdUnix)))
  }

  /**
   * CreateInstanceFile: None when the hash cannot be computed, otherwise
   * the bytes written (the file system calls are not modelled).
   */
  function CreateInstanceFile(uuid: seq<char>, createdUnix: nat, sha: seq<bv8> -> Option<Digest>): (r: Option<seq<bv8>>)
    ensures sha(InstanceJson(uuid, createdUnix)).None? <==> r.None?
    ensures r.Some? ==> |r.value| > SignatureSize + 1
  {
    var json := InstanceJson(uuid, createdUnix);
    Json.ExportStartsWithBrace(Json.InstanceDocument(uuid, createdUnix).members);
    match sha(json)
    case None => None
    case Some(hash) => Some(InstanceBytes(json, hash))
  }

  /**
   * ValidateInstanceFile on the file's bytes: too short, a wrong magic, a
   * version other than 1, a non-zero separator and a hash that differs
   * from (or cannot be computed over) the bytes before the separator each
   * reject the file.
   */
  function ValidateInstanceFile(data: seq<bv8>, sha: seq<bv8> -> Option<Digest>): (ok: bool)
    ensures |data| <= SignatureSize + 1 ==> !ok
    ensures |data| > SignatureSize + 1 && data[|data| - 40 .. |data| - 34] != Magic ==> !ok
    ensures |data| > SignatureSize + 1 && (data[|data| - 34] != 1 || data[|data| - 33] != 0) ==> !ok
    ensures |data| > SignatureSize + 1 && data[|data| - 41] != 0 ==> !ok
    ensures |data| > SignatureSize + 1 && (sha(data[..|data| - 41]).None? || sha(data[..|data| - 41]).value != data[|data| - 32..]) ==> !ok
  {
    if |data| <= SignatureSize + 1 then false
    else
      var sigOffset := |data| - SignatureSize;
      if data[sigOffset .. sigOffset + 6] != Magic then false
      // sig->version != 1, the uint16 read little-endian
      else if data[sigOffset + 6] != 1 || data[sigOffset + 7] != 0 then false
      else if sigOffset == 0 || data[sigOffset - 1] != 0 then false
      else
        var jsonEnd := sigOffset - 1;
        match sha(data[..jsonEnd])
        case None => false
        case Some(hash) => hash == data[sigOffset + 8..]
  }

  /** The parts of a written file sit where ValidateInstanceFile looks for them. */
  lemma InstanceBytesParts(json: seq<bv8>, hash: Digest)
    ensures var data := InstanceBytes(json, hash);
      data[..|json|] == json && data[|json|] == 0
      && data[|json| + 1 .. |json| + 7] == Magic && data[|json| + 7] == 1 && data[|json| + 8] == 0
      && data[|json| + 9..] == hash
  {
    var data := InstanceBytes(json, hash);
    assert data == json + ([0] + (Magic + [0x01, 0x00] + hash));
  }

  /**
   * ValidateInstanceFile accepts exactly the files CreateInstanceFile can
   * write: a non-empty JSON part, a zero, and the signature over that part.
   */
  lemma ValidateAcceptsExactlySigned(data: seq<bv8>, sha: seq<bv8> -> Option<Digest>)
    ensures ValidateInstanceFile(data, sha)
        <==> exists json: seq<bv8>, hash: Digest :: |json| > 0 && sha(json) == Some(hash) && data == InstanceBytes(json, hash)
  {
    if ValidateInstanceFile(data, sha) {
      var json := data[..|data| - 41];
      var hash: Digest := data[|data| - 32..];
      assert data == json + [0] + (data[|data| - 40 .. |data| - 34] + data[|data| - 34 .. |data| - 32] + hash);
      assert data[|data| - 34 .. |data| - 32] == [0x01, 0x00];
      assert data == InstanceBytes(json, hash);
    }
    if exists json: seq<bv8>, hash: Digest :: |json| > 0 && sha(json) == Some(hash) && data == InstanceBytes(json, hash) {
      var json: seq<bv8>, hash: Digest :| |json| > 0 && sha(json) == Some(hash) && data == InstanceBytes(json, hash);
      InstanceBytesParts(json, hash);
      assert |data| - 41 == |json|;
    }
  }

  /** The round trip: whenever CreateInstanceFile writes a file, ValidateInstanceFile accepts it. */
  lemma CreatedFileValidates(uuid: seq<char>, createdUnix: nat, sha: seq<bv8> -> Option<Digest>)
    requires CreateInstanceFile(uuid, createdUnix, sha).Some?
    ensures ValidateInstanceFile(CreateInstanceFile(uuid, createdUnix, sha).value, sha)
  {
    var json := InstanceJson(uuid, createdUnix);
    var hash := sha(json).value;
    Json.ExportStartsWithBrace(Json.InstanceDocument(uuid, createdUnix).members);
    ValidateAcceptsExactlySigned(InstanceBytes(json, hash), sha);
  }

  /** Changing the stored hash of a valid file makes it invalid. */
  lemma TamperedHashRejected(json: seq<bv8>, hash: Digest, forged: Digest, sha: seq<bv8> -> Option<Digest>)
    requires |json| > 0 && sha(json) == Some(hash) && forged != hash
    ensures !ValidateInstanceFile(InstanceBytes(json, forged), sha)
  {
    InstanceBytesParts(json, forged);
  }
}
