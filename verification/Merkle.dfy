/** The Merkle root of a list of transaction hashes (crypto/merkle.go). */
module Merkle {
  import opened Crypto

  /** The text hashed for the i-th pair: an odd last element is paired with itself. */
  function PairText(hs: seq<Hash>, i: nat): Preimage
    requires 2 * i < |hs|
  {
    Raw(hs[2 * i].bytes + (if 2 * i + 1 < |hs| then hs[2 * i + 1] else hs[2 * i]).bytes)
  }

  function Level(sha: Sha, hs: seq<Hash>): (r: seq<Hash>)
    ensures |r| == (|hs| + 1) / 2
  {
    seq<Hash>((|hs| + 1) / 2, i requires 0 <= i < (|hs| + 1) / 2 => sha(PairText(hs, i)))
  }

  function Root(sha: Sha, hs: seq<Hash>): Hash
    decreases |hs|
  {
    if |hs| == 0 then ZERO_HASH
    else if |hs| == 1 then sha(Raw(hs[0].bytes))
    else Root(sha, Level(sha, hs))
  }

  /** The recursive procedure of the source, each level built by appending in a loop. */
  method ComputeRoot(sha: Sha, hashes: seq<Hash>) returns (root: Hash)
    ensures root == Root(sha, hashes)
    decreases |hashes|
  {
    if |hashes| == 0 {
      return ZERO_HASH;
    }
    if |hashes| == 1 {
      return sha(Raw(hashes[0].bytes));
    }
    var level: seq<Hash> := [];
    var i := 0;
    while i < |hashes|
      invariant 0 <= i <= |hashes| + 1 && i == 2 * |level|
      invariant |level| <= (|hashes| + 1) / 2
      invariant level == Level(sha, hashes)[..|level|]
    {
      var h: Hash;
      if i + 1 < |hashes| {
        h := sha(Raw(hashes[i].bytes + hashes[i + 1].bytes));
      } else {
        h := sha(Raw(hashes[i].bytes + hashes[i].bytes));
      }
      assert PairText(hashes, |level|) ==
        Raw(hashes[i].bytes + (if i + 1 < |hashes| then hashes[i + 1] else hashes[i]).bytes);
      assert h == Level(sha, hashes)[|level|];
      level := level + [h];
      i := i + 2;
    }
    assert level == Level(sha, hashes);
    root := ComputeRoot(sha, level);
  }

  /** The first index from `from` on at which two lists differ. */
  function FirstDifference(a: seq<Hash>, b: seq<Hash>, from: nat): (i: nat)
    requires |a| == |b| && from <= |a| && a[from..] != b[from..]
    ensures i < |a| && a[i] != b[i]
    decreases |a| - from
  {
    if a[from] != b[from] then from
    else
      assert a[from..] == [a[from]] + a[from + 1..];
      assert b[from..] == [b[from]] + b[from + 1..];
      FirstDifference(a, b, from + 1)
  }

  lemma PairTextDiffers(a: seq<Hash>, b: seq<Hash>, i: nat)
    requires |a| == |b| && i < |a| && a[i] != b[i]
    ensures PairText(a, i / 2) != PairText(b, i / 2)
  {
    var j := i / 2;
    var p, q := PairText(a, j).bytes, PairText(b, j).bytes;
    assert p[..32] == a[2 * j].bytes && q[..32] == b[2 * j].bytes;
    if 2 * j + 1 < |a| {
      assert p[32..] == a[2 * j + 1].bytes && q[32..] == b[2 * j + 1].bytes;
    }
  }

  /** The root commits to the list: from two different lists of one length with one root,
      two colliding texts can be computed. */
  function Collision(sha: Sha, a: seq<Hash>, b: seq<Hash>): (r: (Preimage, Preimage))
    requires |a| == |b| && a != b && Root(sha, a) == Root(sha, b)
    ensures Collides(sha, r.0, r.1)
    decreases |a|
  {
    if |a| == 1 then
      assert a[0] != b[0];
      (Raw(a[0].bytes), Raw(b[0].bytes))
    else if Level(sha, a) != Level(sha, b) then
      Collision(sha, Level(sha, a), Level(sha, b))
    else
      assert a[0..] == a && b[0..] == b;
      var i := FirstDifference(a, b, 0);
      PairTextDiffers(a, b, i);
      assert sha(PairText(a, i / 2)) == Level(sha, a)[i / 2] == Level(sha, b)[i / 2];
      (PairText(a, i / 2), PairText(b, i / 2))
  }

  lemma LevelAt(sha: Sha, hs: seq<Hash>, i: nat)
    requires 2 * i < |hs|
    ensures i < |Level(sha, hs)| && Level(sha, hs)[i] == sha(PairText(hs, i))
  {
  }

  /** One level of the tree: neighbours are hashed left before right, an odd last element with itself. */
  lemma LevelPairs(sha: Sha, hs: seq<Hash>, i: nat)
    requires 2 * i < |hs|
    ensures i < |Level(sha, hs)|
    ensures 2 * i + 1 < |hs| ==> Level(sha, hs)[i] == sha(Raw(hs[2 * i].bytes + hs[2 * i + 1].bytes))
    ensures 2 * i + 1 == |hs| ==> Level(sha, hs)[i] == sha(Raw(hs[2 * i].bytes + hs[2 * i].bytes))
  {
    LevelAt(sha, hs, i);
  }

  /** The root of lists of up to three hashes, written out. */
  lemma SmallRoots(sha: Sha, x: Hash, y: Hash, z: Hash)
    ensures Root(sha, []) == ZERO_HASH && Root(sha, [x]) == sha(Raw(x.bytes))
    ensures Root(sha, [x, y]) == sha(Raw(sha(Raw(x.bytes + y.bytes)).bytes))
    ensures Root(sha, [x, y, z]) ==
            sha(Raw(sha(Raw(sha(Raw(x.bytes + y.bytes)).bytes + sha(Raw(z.bytes + z.bytes)).bytes)).bytes))
  {
    var xy, zz := sha(Raw(x.bytes + y.bytes)), sha(Raw(z.bytes + z.bytes));
    TwoRoot(sha, x, y);
    LevelPairs(sha, [x, y, z], 0);
    LevelPairs(sha, [x, y, z], 1);
    assert Level(sha, [x, y, z]) == [xy, zz];
    TwoRoot(sha, xy, zz);
  }

  lemma TwoRoot(sha: Sha, x: Hash, y: Hash)
    ensures Root(sha, [x, y]) == sha(Raw(sha(Raw(x.bytes + y.bytes)).bytes))
  {
    LevelPairs(sha, [x, y], 0);
    assert Level(sha, [x, y]) == [sha(Raw(x.bytes + y.bytes))];
  }

  lemma PaddedLevel(sha: Sha, hs: seq<Hash>, padded: seq<Hash>)
    requires |hs| % 2 == 1 && padded == hs + [hs[|hs| - 1]]
    ensures Level(sha, padded) == Level(sha, hs)
  {
    var n := (|hs| + 1) / 2;
    assert (|padded| + 1) / 2 == n;
    forall i | 0 <= i < n
      ensures Level(sha, padded)[i] == Level(sha, hs)[i]
    {
      LevelAt(sha, hs, i);
      LevelAt(sha, padded, i);
      assert PairText(padded, i) == PairText(hs, i);
    }
  }

  /** Without equal lengths the root does not commit: repeating the last of an odd number of
      hashes (three or more) leaves the root unchanged, whatever the hash function. */
  lemma PaddedListHasSameRoot(sha: Sha, hs: seq<Hash>, padded: seq<Hash>)
    requires |hs| >= 3 && |hs| % 2 == 1 && padded == hs + [hs[|hs| - 1]]
    ensures Root(sha, padded) == Root(sha, hs)
  {
    PaddedLevel(sha, hs, padded);
  }
}
