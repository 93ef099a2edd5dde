/** Messages cut into blocks of 64 bytes, as MD5 and SHA-1 cut them. */
module Blocks {
  import opened Bytes

  /** The whole blocks of a message. */
  function Whole(s: seq<byte>): (r: seq<byte>)
    ensures |r| % 64 == 0
  {
    s[..|s| - |s| % 64]
  }

  /** What is left over after the whole blocks. */
  function Rest(s: seq<byte>): seq<byte> {
    s[|s| - |s| % 64..]
  }

  function Zeros(n: nat): (s: seq<byte>)
    ensures |s| == n
    ensures forall i :: 0 <= i < n ==> s[i] == 0
  {
    seq(n, i => 0)
  }

  /** How many zeros bring a message of `n` bytes and one more to 56 modulo 64. */
  function Gap(n: nat): (k: nat)
    ensures k < 64 && (n + 1 + k) % 64 == 56 && (n + (1 + k + 8)) % 64 == 0
  {
    if n % 64 < 56 then 55 - n % 64 else 119 - n % 64
  }

  lemma Split(s: seq<byte>)
    ensures s == Whole(s) + Rest(s) && |Rest(s)| == |s| % 64
    ensures |s| % 64 == 0 ==> Whole(s) == s
  {
  }

  lemma WholeAndRest(done: seq<byte>, rest: seq<byte>)
    requires |done| % 64 == 0 && |rest| < 64
    ensures Whole(done + rest) == done && Rest(done + rest) == rest
  {
    assert |done + rest| % 64 == |rest|;
  }

  lemma StillRest(was: seq<byte>, data: seq<byte>)
    requires |was| % 64 + |data| < 64
    ensures Whole(was + data) == Whole(was) && Rest(was + data) == Rest(was) + data
    ensures |was + data| % 64 == |was| % 64 + |data|
  {
    assert was + data == Whole(was) + (Rest(was) + data);
    WholeAndRest(Whole(was), Rest(was) + data);
  }

  /** A message that just completes a block. */
  lemma CompletesBlock(was: seq<byte>, data: seq<byte>)
    requires |was| % 64 + |data| == 64
    ensures Whole(was + data) == Whole(was) + (Rest(was) + data) && Rest(was + data) == []
    ensures |was + data| % 64 == 0
  {
    assert was + data == Whole(was) + (Rest(was) + data) + [];
    WholeAndRest(Whole(was) + (Rest(was) + data), []);
  }

  lemma Regroup(a: seq<byte>, b: seq<byte>, data: seq<byte>, space: nat)
    requires space <= |data|
    ensures a + b + data == a + (b + data[..space]) + data[space..]
  {
  }

  /** The padded message, cut where it is absorbed: with up to 55 bytes left over
      one block is enough, with more it takes two. */
  lemma LastBlocks(message: seq<byte>, front: seq<byte>, length: seq<byte>)
    requires var r := |message| % 64;
             front == if r < 56 then Rest(message) + [0x80] + Zeros(55 - r) else Zeros(56)
    ensures var r, last := |message| % 64, front + length;
            message + ([0x80] + Zeros(Gap(|message|)) + length)
            == (if r < 56 then Whole(message) else Whole(message) + (Rest(message) + [0x80] + Zeros(63 - r))) + last
  {
    hide Whole, Rest, Zeros;
    Split(message);
    var r := |message| % 64;
    if r < 56 {
      Reassociate(Whole(message), Rest(message), [0x80], Zeros(55 - r), length);
    } else {
      MoreZeros(63 - r, 56);
      ReassociateTwice(Whole(message), Rest(message), [0x80], Zeros(63 - r), Zeros(56), length);
    }
  }

  lemma MoreZeros(m: nat, n: nat)
    ensures Zeros(m + n) == Zeros(m) + Zeros(n)
  {
  }

  lemma Reassociate(a: seq<byte>, b: seq<byte>, c: seq<byte>, d: seq<byte>, e: seq<byte>)
    ensures a + b + (c + d + e) == a + (b + c + d + e)
  {
  }

  lemma ReassociateTwice(a: seq<byte>, b: seq<byte>, c: seq<byte>, d: seq<byte>, e: seq<byte>, f: seq<byte>)
    ensures a + b + (c + (d + e) + f) == a + (b + c + d) + (e + f)
  {
  }
}
