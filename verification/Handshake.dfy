/** The accept key of the WebSocket opening handshake (RFC 6455 section 1.3). */
module Handshake {
  import opened Basics
  import Base64
  import Sha1

  const GUID := "258EAFA5-E914-47DA-95CA-C5AB0DC85B11"

  function Octets(s: string): (b: Bytes)
    ensures |b| == |s|
  {
    seq(|s|, k requires 0 <= k < |s| => s[k] as int % 256)
  }

  /** The only text that decodes to the digest of the client's key and the GUID; always 28
      characters. */
  method ComputeAcceptKey(clientKey: Bytes) returns (key: string)
    ensures Base64.Decode(key)
         == Some(Sha1.Digest(clientKey + Octets("258EAFA5-E914-47DA-95CA-C5AB0DC85B11")))
    ensures |key| == 28
    ensures forall other :: Base64.Decode(other) == Base64.Decode(key) ==> other == key
  {
    hide Base64.Decode, Sha1.Digest, Octets;
    var digest := Sha1.Sha1Digest(clientKey + Octets(GUID));
    key := Base64.Encode(digest);
    forall other | Base64.Decode(other) == Base64.Decode(key)
      ensures other == key
    {
      Base64.DecodeIsInjective(other, key);
    }
  }
}
