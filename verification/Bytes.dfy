/** Bytes and the network order of integers. */
module Bytes {

  type byte = b: int | 0 <= b < 256

  const UNSIGNED := 0x1_0000_0000

  /** `htonl` of a number cast to 32 bits. */
  function Htonl(n: int): (bytes: seq<byte>)
    ensures |bytes| == 4
  {
    var m: nat := n % UNSIGNED;
    var m1: nat := m / 256;
    var m2: nat := m1 / 256;
    var b0: nat, b1: nat, b2: nat, b3: nat := m2 / 256, m2 % 256, m1 % 256, m % 256;
    [b0, b1, b2, b3]
  }

  function Ntohl(bytes: seq<byte>): nat
    requires |bytes| == 4
  {
    ((bytes[0] as int * 256 + bytes[1]) * 256 + bytes[2]) * 256 + bytes[3]
  }

  lemma NtohlHtonl(n: int)
    ensures Ntohl(Htonl(n)) == n % UNSIGNED
  {
  }

  lemma LastByte(n: nat, b: byte)
    ensures (n * 256 + b) / 256 == n && (n * 256 + b) % 256 == b
  {
  }

  lemma InRange(n: nat)
    requires n < 0x1_0000_0000
    ensures n % UNSIGNED == n
  {
  }

  /** The most significant byte comes first. */
  lemma BigEndian(b0: byte, b1: byte, b2: byte, b3: byte)
    ensures var n := ((b0 as int * 256 + b1) * 256 + b2) * 256 + b3;
      Htonl(n) == [b0, b1, b2, b3] && Ntohl([b0, b1, b2, b3]) == n
  {
    var m2: nat := b0;
    var m1: nat := m2 * 256 + b1;
    var m: nat := m1 * 256 + b2;
    var n: nat := m * 256 + b3;
    InRange(n);
    LastByte(m2, b1);
    LastByte(m1, b2);
    LastByte(m, b3);
  }

  /** The length of a C string. */
  function Strlen(s: seq<byte>): (n: nat)
    requires 0 in s
    ensures n < |s| && s[n] == 0 && 0 !in s[..n]
  {
    if s[0] == 0 then 0
    else
      var n := Strlen(s[1..]);
      assert s[..n + 1] == [s[0]] + s[1..][..n];
      n + 1
  }

  lemma {:induction false} StrlenIs(name: seq<byte>, rest: seq<byte>)
    requires 0 !in name
    ensures 0 in name + [0] + rest
    ensures Strlen(name + [0] + rest) == |name|
  {
    var s := name + [0] + rest;
    assert s[|name|] == 0;
    if name != [] {
      StrlenIs(name[1..], rest);
      assert s[1..] == name[1..] + [0] + rest;
    }
  }
}
