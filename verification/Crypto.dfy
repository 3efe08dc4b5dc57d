/**
 Authenticated encryption and content hashes, as far as the storage format
 depends on them: sizes, and that opening undoes sealing.
 */
module Crypto {
  import opened Blobs

  const NONCE_SIZE: nat := 16
  const MAC_SIZE: nat := 16

  /** The number of bytes a plaintext grows by when it is stored. */
  const EXTENSION: nat := NONCE_SIZE + MAC_SIZE

  datatype Key = Key(seal: (seq<byte>, seq<byte>) -> seq<byte>,
                     open: (seq<byte>, seq<byte>) -> Option<seq<byte>>)
  {
    /** What the cipher is trusted for: sealing has a fixed overhead, and opening undoes it. */
    ghost predicate Lawful() {
      forall nonce, p :: |nonce| == NONCE_SIZE ==>
        |seal(nonce, p)| == |p| + MAC_SIZE && open(nonce, seal(nonce, p)) == Some(p)
    }

    /** What opens has the length that sealing would have given it. */
    ghost predicate Sized() {
      forall nonce, c :: open(nonce, c).Some? ==> |c| == |open(nonce, c).value| + MAC_SIZE
    }

    /** A plaintext in the form in which it is stored: the nonce, then the ciphertext. */
    function Sealed(nonce: seq<byte>, p: seq<byte>): seq<byte> {
      nonce + seal(nonce, p)
    }

    /** The plaintext of a stored form. */
    function Opened(buf: seq<byte>): Option<seq<byte>>
      requires |buf| >= NONCE_SIZE
    {
      open(buf[..NONCE_SIZE], buf[NONCE_SIZE..])
    }

    lemma OpenedSealed(nonce: seq<byte>, p: seq<byte>)
      requires Lawful() && |nonce| == NONCE_SIZE
      ensures |Sealed(nonce, p)| == |p| + EXTENSION
      ensures Opened(Sealed(nonce, p)) == Some(p)
    {
      var buf := Sealed(nonce, p);
      assert |seal(nonce, p)| == |p| + MAC_SIZE;
      assert buf[..NONCE_SIZE] == nonce && buf[NONCE_SIZE..] == seal(nonce, p);
    }
  }

  /** The content hash and the repository's key. */
  datatype Env = Env(hash: seq<byte> -> Id, key: Key)
}
