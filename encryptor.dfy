/** The parameter normalisation and key/IV selection of
    FPNNTCPClient.enableEncryptor (src/fpnn/fpnn_client.py). The ECDH exchange
    itself is foreign: its shared secret is an input, and MD5 and SHA-256 are
    function parameters whose only known property is their output length. */
module Encryptor {
  import opened Bytes

  datatype Curve = Secp256k1 | Secp256r1 | Secp192r1 | Secp224r1

  /** The curve used for a requested curve name: one of the four supported
      names, and secp256k1 for any other. */
  function CurveByName(name: string): (c: Curve)
    ensures name == "secp256r1" ==> c == Secp256r1
    ensures name == "secp192r1" ==> c == Secp192r1
    ensures name == "secp224r1" ==> c == Secp224r1
    ensures name !in {"secp256r1", "secp192r1", "secp224r1"} ==> c == Secp256k1
  {
    if name !in ["secp256k1", "secp256r1", "secp192r1", "secp224r1"] then Secp256k1
    else if name == "secp256k1" then Secp256k1
    else if name == "secp256r1" then Secp256r1
    else if name == "secp192r1" then Secp192r1
    else Secp224r1
  }

  /** Byte length of an ECDH shared secret on each curve (the x coordinate
      of a point, as long as the field elements). */
  function SecretLength(c: Curve): nat
  {
    match c
    case Secp256k1 => 32
    case Secp256r1 => 32
    case Secp192r1 => 24
    case Secp224r1 => 28
  }

  /** The key strength used: the requested one when it is 128 or 256,
      otherwise 128. */
  function NormalizeStrength(strength: int): (r: int)
    ensures r == 128 || r == 256
    ensures strength == 128 || strength == 256 ==> r == strength
  {
    if strength !in [128, 256] then 128 else strength
  }

  /** The AES key taken from the shared secret: its first 16 bytes (Python's
      slice, so fewer if the secret is shorter) for strength 128; for 256
      the secret itself when it is 32 bytes long, otherwise its SHA-256. */
  function SelectKey(strength: int, secret: seq<byte>, sha256: seq<byte> -> seq<byte>): (key: seq<byte>)
    requires strength == 128 || strength == 256
    requires forall s :: |sha256(s)| == 32
    ensures strength == 128 ==> key <= secret && |key| == if |secret| < 16 then |secret| else 16
    ensures strength == 256 ==> |key| == 32
  {
    if strength == 128 then secret[0..if |secret| < 16 then |secret| else 16]
    else if |secret| == 32 then secret
    else sha256(secret)
  }

  /** The fields enableEncryptor sets: self.strength, self.key, self.iv. */
  datatype KeyMaterial = KeyMaterial(strength: int, key: seq<byte>, iv: seq<byte>)

  function Derive(strength: int, secret: seq<byte>, md5: seq<byte> -> seq<byte>, sha256: seq<byte> -> seq<byte>): (km: KeyMaterial)
    requires forall s :: |sha256(s)| == 32
    ensures km.strength == 128 || km.strength == 256
  {
    var st := NormalizeStrength(strength);
    KeyMaterial(st, SelectKey(st, secret, sha256), md5(secret))
  }

  /** With a shared secret as long as its curve makes it, the derived key
      has exactly strength/8 bytes and the IV 16, as AES in CFB mode needs;
      for 256 bits the key is the secret itself on the 256-bit curves and
      its SHA-256 on the 192- and 224-bit curves. */
  lemma DerivedKeyFitsAes(curveName: string, strength: int, secret: seq<byte>,
                          md5: seq<byte> -> seq<byte>, sha256: seq<byte> -> seq<byte>)
    requires forall s :: |md5(s)| == 16
    requires forall s :: |sha256(s)| == 32
    requires |secret| == SecretLength(CurveByName(curveName))
    ensures |Derive(strength, secret, md5, sha256).key| * 8 == Derive(strength, secret, md5, sha256).strength
    ensures |Derive(strength, secret, md5, sha256).iv| == 16
    ensures Derive(strength, secret, md5, sha256).strength == 128 ==> Derive(strength, secret, md5, sha256).key == secret[..16]
    ensures Derive(strength, secret, md5, sha256).strength == 256 ==>
              Derive(strength, secret, md5, sha256).key
                == if CurveByName(curveName) in {Secp256k1, Secp256r1} then secret else sha256(secret)
  {
    var c := CurveByName(curveName);
    assert |secret| >= 16 by {
      match c
      case Secp256k1 =>
      case Secp256r1 =>
      case Secp192r1 =>
      case Secp224r1 =>
    }
  }
}
