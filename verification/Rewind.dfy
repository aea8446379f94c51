/** View-only rewind of an output: the 20-byte proof message and what it identifies (src/rewind.rs). */
module Rewind {
  import opened Basics
  import opened Text

  /** Depth byte followed by four path elements of four bytes. */
  const IDENTIFIER_LEN: nat := 17

  datatype Recovered = Recovered(value: u64, keyId: string, nChild: u32)

  // ---- big-endian paths ----

  function Word(b0: nat, b1: nat, b2: nat, b3: nat): nat {
    0x1_0000 * (0x100 * b0 + b1) + (0x100 * b2 + b3)
  }

  function U32Bytes(n: u32): (b: seq<byte>)
    ensures |b| == 4
  {
    var hi, lo := n / 0x1_0000, n % 0x1_0000;
    [hi / 0x100, hi % 0x100, lo / 0x100, lo % 0x100]
  }

  function FromBigEndian(b: seq<byte>): u32
    requires |b| == 4
  {
    Word(b[0], b[1], b[2], b[3])
  }

  function PathBytes(path: seq<u32>): (b: seq<byte>)
    ensures |b| == 4 * |path|
  {
    if |path| == 0 then [] else U32Bytes(path[0]) + PathBytes(path[1..])
  }

  /** The `n` path elements held in `4 * n` bytes. */
  function PathFromBytes(b: seq<byte>, n: nat): (path: seq<u32>)
    requires |b| == 4 * n
    ensures |path| == n
    decreases n
  {
    if n == 0 then [] else [FromBigEndian(b[..4])] + PathFromBytes(b[4..], n - 1)
  }

  lemma DecodeWord(n: u32)
    ensures FromBigEndian(U32Bytes(n)) == n
  {
  }

  lemma EncodeWord(b: seq<byte>)
    requires |b| == 4
    ensures U32Bytes(FromBigEndian(b)) == b
  {
    var hi: nat, lo: nat := 0x100 * (b[0] as int) + b[1], 0x100 * (b[2] as int) + b[3];
    assert FromBigEndian(b) / 0x1_0000 == hi && FromBigEndian(b) % 0x1_0000 == lo;
    assert hi / 0x100 == b[0] && hi % 0x100 == b[1];
    assert lo / 0x100 == b[2] && lo % 0x100 == b[3];
  }

  lemma {:induction false} PathRoundTrip(path: seq<u32>)
    ensures PathFromBytes(PathBytes(path), |path|) == path
  {
    if |path| > 0 {
      var b := PathBytes(path);
      DecodeWord(path[0]);
      PathRoundTrip(path[1..]);
      assert b[..4] == U32Bytes(path[0]) && b[4..] == PathBytes(path[1..]);
    }
  }

  lemma {:induction false} BytesRoundTrip(b: seq<byte>, n: nat)
    requires |b| == 4 * n
    ensures PathBytes(PathFromBytes(b, n)) == b
    decreases n
  {
    if n > 0 {
      var rest := PathFromBytes(b[4..], n - 1);
      assert PathFromBytes(b, n)[1..] == rest;
      EncodeWord(b[..4]);
      BytesRoundTrip(b[4..], n - 1);
      assert b == b[..4] + b[4..];
    }
  }

  lemma {:induction false} PathWord(b: seq<byte>, n: nat, k: nat)
    requires |b| == 4 * n && k < n
    ensures PathFromBytes(b, n)[k] == FromBigEndian(b[4 * k..4 * k + 4])
    decreases n
  {
    hide FromBigEndian;
    if k > 0 {
      PathWord(b[4..], n - 1, k - 1);
      var at := 4 * (k - 1);
      assert b[4..][at..at + 4] == b[at + 4..at + 8];
    }
  }

  // ---- the proof message ----

  /** The v3 message a wallet embeds: reserved byte, wallet type, switch, depth, path. */
  function Message(switchByte: byte, depth: byte, path: seq<u32>): (m: seq<byte>)
    requires |path| == 4
    ensures |m| == 20
  {
    [0, 0, switchByte, depth] + PathBytes(path)
  }

  predicate Plausible(message: seq<byte>) {
    |message| == 20 && message[0] == 0 && message[1] == 0 && message[2] <= 1 && 1 <= message[3] <= 4
  }

  /** What an accepted message says: the identifier bytes and the last path element in use. */
  function Recover(value: u64, message: seq<byte>): Option<Recovered> {
    if Plausible(message) && value != 0
    then Some(Recovered(value, HexEncode(message[3..]), PathFromBytes(message[4..], 4)[message[3] - 1]))
    else None
  }

  method ReadPath(bytes: seq<byte>) returns (fullPath: array<u32>)
    requires |bytes| == 16
    ensures fresh(fullPath) && fullPath[..] == PathFromBytes(bytes, 4)
  {
    ghost var path := PathFromBytes(bytes, 4);
    fullPath := new u32[4](_ => 0);
    for i := 0 to 4
      invariant forall k :: 0 <= k < i ==> fullPath[k] == path[k]
    {
      PathWord(bytes, 4, i);
      fullPath[i] := FromBigEndian(bytes[4 * i..4 * i + 4]);
    }
  }

  /** The parser as written: buffers filled by a copy and by a loop over four-byte chunks. */
  method ParseV3Message(value: u64, message: seq<byte>) returns (r: Option<Recovered>)
    ensures r == Recover(value, message)
    ensures r.Some? <==> |message| == 20 && message[0] == 0 && message[1] == 0 && message[2] <= 1
                         && 1 <= message[3] <= 4 && value != 0
  {
    hide HexEncode; hide PathFromBytes;
    if |message| != 20 { return None; }
    if message[0] != 0 || message[1] != 0 { return None; }
    if message[2] > 1 { return None; }
    var depth := message[3];
    if depth == 0 || depth > 4 { return None; }
    if value == 0 { return None; }

    var identifier := new byte[IDENTIFIER_LEN](_ => 0);
    identifier[0] := depth;
    forall i | 1 <= i < IDENTIFIER_LEN {
      identifier[i] := message[i + 3];
    }

    assert identifier[..] == message[3..];
    var fullPath := ReadPath(message[4..]);
    r := Some(Recovered(value, HexEncode(identifier[..]), fullPath[depth - 1]));
  }

  /**
   What is read from where: the identifier is the message from its depth byte on, in hex, and `n_child` the
   big-endian word at the depth.
   */
  lemma RecoverReads(value: u64, message: seq<byte>)
    requires |message| == 20
    ensures Recover(value, message).Some? <==>
            message[0] == 0 && message[1] == 0 && message[2] <= 1 && 1 <= message[3] <= 4 && value != 0
    ensures Recover(value, message).Some? ==>
              var r, at := Recover(value, message).value, 4 * message[3];
              && r.value == value && |r.keyId| == 34
              && r.nChild == 0x100_0000 * (message[at] as int) + 0x1_0000 * (message[at + 1] as int)
                             + 0x100 * (message[at + 2] as int) + message[at + 3] as int
              && forall k :: 0 <= k < 17 ==>
                   && r.keyId[2 * k] == "0123456789abcdef"[message[k + 3] / 16]
                   && r.keyId[2 * k + 1] == "0123456789abcdef"[message[k + 3] % 16]
  {
    if Recover(value, message).Some? {
      hide HexEncode; hide PathFromBytes;
      var id, path, depth := message[3..], message[4..], message[3];
      forall k | 0 <= k < 17
        ensures HexEncode(id)[2 * k] == "0123456789abcdef"[message[k + 3] / 16]
        ensures HexEncode(id)[2 * k + 1] == "0123456789abcdef"[message[k + 3] % 16]
      {
        HexChars(id, k);
      }
      PathWord(path, 4, depth - 1);
      WordAt(path, 4 * (depth - 1));
    }
  }

  lemma WordAt(b: seq<byte>, at: nat)
    requires at + 4 <= |b|
    ensures FromBigEndian(b[at..at + 4]) ==
            0x100_0000 * (b[at] as int) + 0x1_0000 * (b[at + 1] as int) + 0x100 * (b[at + 2] as int) + b[at + 3] as int
  {
  }

  /** Every well-formed message is accepted, and its identifier gives back depth, path and `n_child`. */
  lemma MessageRoundTrip(value: u64, switchByte: byte, depth: byte, path: seq<u32>)
    requires value != 0 && switchByte <= 1 && 1 <= depth <= 4 && |path| == 4
    ensures Recover(value, Message(switchByte, depth, path)).Some?
    ensures var r := Recover(value, Message(switchByte, depth, path)).value;
            && r.value == value && r.nChild == path[depth - 1]
            && DecodeHexArray(r.keyId, IDENTIFIER_LEN).Some?
            && var id := DecodeHexArray(r.keyId, IDENTIFIER_LEN).value;
               id[0] == depth && PathFromBytes(id[1..], 4) == path
  {
    var m := Message(switchByte, depth, path);
    PathRoundTrip(path);
    HexArrayRoundTrip(m[3..], IDENTIFIER_LEN);
    assert m[4..] == PathBytes(path) && m[3..][1..] == PathBytes(path);
  }

  /** Nothing else is accepted: the parser's language is exactly the image of `Message`. */
  lemma AcceptsExactlyMessages(value: u64, message: seq<byte>)
    requires value != 0
    ensures Recover(value, message).Some? <==>
            exists s: byte, d: byte, path: seq<u32> ::
              s <= 1 && 1 <= d <= 4 && |path| == 4 && message == Message(s, d, path)
  {
    if Recover(value, message).Some? {
      var path := PathFromBytes(message[4..], 4);
      BytesRoundTrip(message[4..], 4);
      assert message == Message(message[2], message[3], path);
    }
  }

  /** The identifier forgets the switch byte and nothing else. */
  lemma SameKeyIdIff(value: u64, other: u64, m: seq<byte>, n: seq<byte>)
    requires Plausible(m) && Plausible(n) && value != 0 && other != 0
    ensures Recover(value, m).value.keyId == Recover(other, n).value.keyId <==> m == n[2 := m[2]]
  {
    HexRoundTrip(m[3..]);
    HexRoundTrip(n[3..]);
    if m[3..] == n[3..] {
      assert forall k :: 3 <= k < 20 ==> m[k] == m[3..][k - 3] && n[k] == n[3..][k - 3];
      assert m == n[2 := m[2]];
    }
  }

  // ---- the proof and its rewind ----

  /** What the bulletproof rewind reveals to one credential: the value and the embedded message. */
  datatype Opening = Opening(value: u64, message: seq<byte>)

  /** A range proof, given by what it reveals to each credential whose nonce opens it. */
  type RangeProof = map<string, Opening>

  /** Open, then parse: a proof that does not open, or opens to an implausible message, is no match. */
  function RewindOutput(rewindHash: string, proof: RangeProof): Option<Recovered> {
    if rewindHash in proof then Recover(proof[rewindHash].value, proof[rewindHash].message) else None
  }

  method RewindOutputViewOnly(rewindHash: string, proof: RangeProof) returns (r: Option<Recovered>)
    ensures r == RewindOutput(rewindHash, proof)
    ensures r == if Opens(rewindHash, proof) then Some(Found(rewindHash, proof)) else None
  {
    if rewindHash !in proof { return None; }
    r := ParseV3Message(proof[rewindHash].value, proof[rewindHash].message);
  }

  /** The credential opens the proof, and to something the parser accepts. */
  predicate Opens(rewindHash: string, proof: RangeProof) {
    rewindHash in proof && proof[rewindHash].value != 0 && Plausible(proof[rewindHash].message)
  }

  function Found(rewindHash: string, proof: RangeProof): Recovered
    requires Opens(rewindHash, proof)
  {
    RewindOutput(rewindHash, proof).value
  }

  /** The identifier spells out a path of depth 1 to 4 whose last element in use is `nChild`. */
  predicate NamesPath(keyId: string, nChild: u32) {
    DecodeHexArray(keyId, IDENTIFIER_LEN).Some? &&
    var id := DecodeHexArray(keyId, IDENTIFIER_LEN).value;
    |id| == IDENTIFIER_LEN && 1 <= id[0] <= 4 && PathFromBytes(id[1..], 4)[id[0] - 1] == nChild
  }

  /** Whatever a proof holds, a match has a nonzero value and an identifier a wallet can spend from. */
  lemma FoundIsSpendable(rewindHash: string, proof: RangeProof)
    requires Opens(rewindHash, proof)
    ensures Found(rewindHash, proof).value != 0
    ensures NamesPath(Found(rewindHash, proof).keyId, Found(rewindHash, proof).nChild)
  {
    var m := proof[rewindHash].message;
    HexArrayRoundTrip(m[3..], IDENTIFIER_LEN);
    assert m[3..][1..] == m[4..];
  }

  /** An output belongs to at most one wallet. */
  ghost predicate SoleOwner(proof: RangeProof) {
    forall a, b :: Opens(a, proof) && Opens(b, proof) ==> a == b
  }
}
