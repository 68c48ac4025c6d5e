/**
 * The anonymous user identity token of
 * internal/app/generators/user_token_generator.go: hex(id ++ HMAC-SHA256(key, id))
 * for a 4-byte random id. The random bytes, the secret key's bytes and the
 * HMAC (RFC 2104) are parameters; the hex layer is modelled in module Hex.
 */
module UserTokenGenerator {
  import opened Optional
  import opened Bytes
  import opened ErrorUtil
  import opened Hex

  const ID_LENGTH: nat := 4
  const MAC_LENGTH: nat := 32
  const TOKEN_LENGTH: nat := 2 * (ID_LENGTH + MAC_LENGTH)

  type Mac = s: seq<uint8> | |s| == 32 witness seq(32, _ => 0)

  /** HMAC-SHA256(key, message), as hmac.New(sha256.New, key) followed by Write and Sum. */
  type Hmac = (seq<uint8>, seq<uint8>) -> Mac

  /**
   * GenerateUserIDToken, given what generateRandom(4) produced: four random
   * bytes, or the error of crypto/rand.
   */
  function GenerateUserIDToken(random: Result<seq<uint8>>, key: seq<uint8>, hmac: Hmac): (r: (string, Option<Error>))
    requires random.Ok? ==> |random.value| == ID_LENGTH
    ensures random.Fail? ==> r == ("", Some(random.err))
    ensures random.Ok? ==>
      && r.1 == None
      && |r.0| == TOKEN_LENGTH
      && IsLowerHex(r.0)
      && Decode(r.0) == Ok(random.value + hmac(key, random.value))
  {
    match random
    case Fail(e) => ("", Some(e))
    case Ok(id) =>
      var signed := id + hmac(key, id);
      EncodeIsLowerHex(signed);
      DecodeEncode(signed);
      (Encode(signed), None)
  }

  /**
   * The token is long enough for the id slices: data[4:] in AuthUserIDToken
   * does not panic, and data[:4] in GetUserID stays within the decoded bytes.
   */
  predicate Indexable(token: string)
  {
    Decode(token).Ok? ==> |Decode(token).value| >= ID_LENGTH
  }

  /**
   * AuthUserIDToken: the decoding error, or whether the bytes after the id
   * are the MAC of the id (hmac.Equal compares contents and length).
   */
  function AuthUserIDToken(token: string, key: seq<uint8>, hmac: Hmac): (r: (bool, Option<Error>))
    requires Indexable(token)
    ensures Decode(token).Fail? ==> r == (false, Some(Decode(token).err))
    ensures Decode(token).Ok? ==> r.1 == None
    ensures r.0 <==>
      Decode(token).Ok? && Decode(token).value[ID_LENGTH..] == hmac(key, Decode(token).value[..ID_LENGTH])
  {
    match Decode(token)
    case Fail(e) => (false, Some(e))
    case Ok(data) =>
      var sign := hmac(key, data[..ID_LENGTH]);
      if sign != data[ID_LENGTH..] then (false, None) else (true, None)
  }

  /** GetUserID: binary.BigEndian.Uint32 of the first 4 decoded bytes, without checking the MAC. */
  function GetUserID(token: string): (r: (uint32, Option<Error>))
    requires Indexable(token)
    ensures Decode(token).Fail? ==> r == (0, Some(Decode(token).err))
    ensures Decode(token).Ok? ==>
      var d := Decode(token).value;
      r == (d[0] as int * 0x100_0000 + d[1] as int * 0x1_0000 + d[2] as int * 0x100 + d[3] as int, None)
  {
    match Decode(token)
    case Fail(e) => (0, Some(e))
    case Ok(data) =>
      var id := data[..ID_LENGTH];
      BigEndianBound(id);
      Pow256Four();
      BigEndianOfFour(id);
      (BigEndian(id), None)
  }

  lemma BigEndianOfFour(b: seq<uint8>)
    requires |b| == 4
    ensures BigEndian(b) == b[0] as int * 0x100_0000 + b[1] as int * 0x1_0000 + b[2] as int * 0x100 + b[3] as int
  {
    assert b[..3][..2] == b[..2];
    assert b[..2][..1] == b[..1];
    assert b[..1][..0] == [];
    assert BigEndian(b[..1]) == b[0];
    assert BigEndian(b[..2]) == b[0] as int * 0x100 + b[1] as int;
    assert BigEndian(b[..3]) == b[0] as int * 0x1_0000 + b[1] as int * 0x100 + b[2] as int;
  }

  /** A token issued for some id and key is accepted under that key. */
  lemma AuthAcceptsIssuedToken(id: seq<uint8>, key: seq<uint8>, hmac: Hmac)
    requires |id| == ID_LENGTH
    ensures Indexable(GenerateUserIDToken(Ok(id), key, hmac).0)
    ensures AuthUserIDToken(GenerateUserIDToken(Ok(id), key, hmac).0, key, hmac) == (true, None)
  {
    var data := id + hmac(key, id);
    assert data[..ID_LENGTH] == id;
    assert data[ID_LENGTH..] == hmac(key, id);
  }

  /** A token carrying anything but the MAC of its id is refused, without an error. */
  lemma AuthRejectsForgedMac(id: seq<uint8>, forged: seq<uint8>, key: seq<uint8>, hmac: Hmac)
    requires |id| == ID_LENGTH && forged != hmac(key, id)
    ensures var token := Encode(id + forged);
      Indexable(token) && AuthUserIDToken(token, key, hmac) == (false, None)
  {
    var data := id + forged;
    DecodeEncode(data);
    assert data[..ID_LENGTH] == id;
    assert data[ID_LENGTH..] == forged;
  }

  /** The owner id of an issued token is its 4 random bytes read big-endian. */
  lemma GetUserIDOfIssuedToken(id: seq<uint8>, key: seq<uint8>, hmac: Hmac)
    requires |id| == ID_LENGTH
    ensures Indexable(GenerateUserIDToken(Ok(id), key, hmac).0)
    ensures GetUserID(GenerateUserIDToken(Ok(id), key, hmac).0) == (BigEndian(id), None)
  {
    var data := id + hmac(key, id);
    assert data[..ID_LENGTH] == id;
    BigEndianOfFour(id);
  }

  /** The fixed user id of the generator test in shorturl_generator_test.go, a UUID. */
  const TEST_USER_ID := "e0dba740-fc4b-4977-872c-d360239e6b1a"

  /**
   * GetUserID rejects that id: its dash after eight hex digits is not a hex
   * digit, so the test's NoError requirement on this call cannot hold.
   */
  lemma TestUserIDIsNotHex()
    ensures Decode(TEST_USER_ID) == Fail(InvalidHexByte('-'))
    ensures GetUserID(TEST_USER_ID) == (0, Some(InvalidHexByte('-')))
  {
    DecodeReportsFirstInvalid(TEST_USER_ID, 8);
  }
}
