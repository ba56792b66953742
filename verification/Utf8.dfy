/**
 Rune-wise truncation of byte strings (model.go:88-103).

 Decoding follows sections 3 and 4 of RFC 3629 as Go's `range` does: a byte that
 does not start a well-formed sequence is one rune of width 1, read as U+FFFD,
 whose own encoding has 3 bytes.
 */
module Utf8 {
  import opened Common
  import opened Runes

  predicate ByteIn(s: string, i: nat, lo: int, hi: int) {
    i < |s| && lo <= s[i] as int <= hi
  }

  predicate Tail(s: string, i: nat) {
    ByteIn(s, i, 0x80, 0xBF)
  }

  /** Width of the well-formed sequence starting at `i`, or 0 when there is none. */
  function Sequence(s: string, i: nat): (w: nat)
    requires i < |s|
    ensures w <= 4 && i + w <= |s|
  {
    var b := s[i] as int;
    if b < 0x80 then 1
    else if 0xC2 <= b <= 0xDF && Tail(s, i + 1) then 2
    else if b == 0xE0 && ByteIn(s, i + 1, 0xA0, 0xBF) && Tail(s, i + 2) then 3
    else if (0xE1 <= b <= 0xEC || 0xEE <= b <= 0xEF) && Tail(s, i + 1) && Tail(s, i + 2) then 3
    else if b == 0xED && ByteIn(s, i + 1, 0x80, 0x9F) && Tail(s, i + 2) then 3
    else if b == 0xF0 && ByteIn(s, i + 1, 0x90, 0xBF) && Tail(s, i + 2) && Tail(s, i + 3) then 4
    else if 0xF1 <= b <= 0xF3 && Tail(s, i + 1) && Tail(s, i + 2) && Tail(s, i + 3) then 4
    else if b == 0xF4 && ByteIn(s, i + 1, 0x80, 0x8F) && Tail(s, i + 2) && Tail(s, i + 3) then 4
    else 0
  }

  /** The code point of three bytes that form a sequence, and that of four. */
  function Point3(x: int, y: int, z: int): int { (x - 0xE0) * 4096 + (y - 0x80) * 64 + (z - 0x80) }
  function Point4(x: int, y: int, z: int, u: int): int {
    (x - 0xF0) * 262144 + (y - 0x80) * 4096 + (z - 0x80) * 64 + (u - 0x80)
  }

  lemma Encodes2(x: int, y: int)
    requires 0xC2 <= x <= 0xDF && 0x80 <= y <= 0xBF
    ensures var cp := (x - 0xC0) * 64 + (y - 0x80); Scalar(cp) && Encode(cp) == [Byte(x), Byte(y)]
  {
  }

  lemma Encodes3(x: int, y: int, z: int)
    requires 0xE0 <= x <= 0xEF && 0x80 <= y <= 0xBF && 0x80 <= z <= 0xBF
    requires (x == 0xE0 ==> 0xA0 <= y) && (x == 0xED ==> y <= 0x9F)
    ensures var cp := Point3(x, y, z); Scalar(cp) && Encode(cp) == [Byte(x), Byte(y), Byte(z)]
  {
    var cp := Point3(x, y, z);
    assert cp / 64 == (x - 0xE0) * 64 + (y - 0x80) && cp % 64 == z - 0x80;
  }

  lemma Encodes4(x: int, y: int, z: int, u: int)
    requires 0xF0 <= x <= 0xF4 && 0x80 <= y <= 0xBF && 0x80 <= z <= 0xBF && 0x80 <= u <= 0xBF
    requires (x == 0xF0 ==> 0x90 <= y) && (x == 0xF4 ==> y <= 0x8F)
    ensures var cp := Point4(x, y, z, u); Scalar(cp) && Encode(cp) == [Byte(x), Byte(y), Byte(z), Byte(u)]
  {
    var cp := Point4(x, y, z, u);
    var front := (x - 0xF0) * 64 + (y - 0x80);
    var middle := front * 64 + (z - 0x80);
    assert cp == middle * 64 + (u - 0x80);
    Shift(middle, u - 0x80);
    Shift(front, z - 0x80);
    Shift(x - 0xF0, y - 0x80);
    assert cp / 4096 == cp / 64 / 64 == front && cp / 262144 == front / 64 == x - 0xF0;
  }

  lemma Shift(q: nat, r: nat)
    requires r < 64
    ensures (q * 64 + r) / 64 == q && (q * 64 + r) % 64 == r
  {
  }

  /** The code point that the sequence at `i` encodes. */
  lemma Decodes(s: string, i: nat) returns (cp: int)
    requires i < |s| && Sequence(s, i) > 0
    ensures Scalar(cp) && Encode(cp) == s[i..i + Sequence(s, i)]
  {
    var w := Sequence(s, i);
    var x := s[i] as int;
    if w == 1 {
      cp := x;
    } else if w == 2 {
      cp := (x - 0xC0) * 64 + (s[i + 1] as int - 0x80);
      Encodes2(x, s[i + 1] as int);
    } else if w == 3 {
      cp := Decodes3(s, i);
    } else {
      cp := Decodes4(s, i);
    }
  }

  lemma Decodes3(s: string, i: nat) returns (cp: int)
    requires i < |s| && Sequence(s, i) == 3
    ensures Scalar(cp) && Encode(cp) == s[i..i + 3]
  {
    cp := Point3(s[i] as int, s[i + 1] as int, s[i + 2] as int);
    Encodes3(s[i] as int, s[i + 1] as int, s[i + 2] as int);
  }

  lemma Decodes4(s: string, i: nat) returns (cp: int)
    requires i < |s| && Sequence(s, i) == 4
    ensures Scalar(cp) && Encode(cp) == s[i..i + 4]
  {
    cp := Point4(s[i] as int, s[i + 1] as int, s[i + 2] as int, s[i + 3] as int);
    Encodes4(s[i] as int, s[i + 1] as int, s[i + 2] as int, s[i + 3] as int);
  }

  lemma EncodedIsSequence(s: string, i: nat, cp: int)
    requires Scalar(cp) && i + |Encode(cp)| <= |s| && s[i..i + |Encode(cp)|] == Encode(cp)
    ensures i < |s| && Sequence(s, i) == |Encode(cp)|
  {
    var r := Encode(cp);
    assert forall k :: 0 <= k < |r| ==> s[i + k] == r[k];
    if cp >= 0x1_0000 {
      LongLead(cp);
    } else if cp >= 0x800 {
      assert 0xE0 <= r[0] as int <= 0xEF && (r[0] as int == 0xE0 ==> r[1] as int >= 0xA0);
      assert r[0] as int == 0xED ==> r[1] as int <= 0x9F;
    }
  }

  /** How the longest encodings start. */
  lemma LongLead(cp: int)
    requires Scalar(cp) && cp >= 0x1_0000
    ensures var r := Encode(cp);
      && |r| == 4 && 0xF0 <= r[0] as int <= 0xF4
      && (r[0] as int == 0xF0 ==> r[1] as int >= 0x90) && (r[0] as int == 0xF4 ==> r[1] as int <= 0x8F)
      && 0x80 <= r[1] as int <= 0xBF && 0x80 <= r[2] as int <= 0xBF && 0x80 <= r[3] as int <= 0xBF
  {
  }

  /** The bytes at `i` are the encoding of some code point. */
  ghost predicate EncodedAt(s: string, i: nat, w: nat) {
    exists cp :: Scalar(cp) && |Encode(cp)| == w && i + w <= |s| && s[i..i + w] == Encode(cp)
  }

  /** A sequence of `w` bytes is well-formed exactly if it is the encoding of a code point (RFC 3629, section 3). */
  lemma SequenceIsEncoding(s: string, i: nat, w: nat)
    requires i < |s| && w > 0
    ensures Sequence(s, i) == w <==> EncodedAt(s, i, w)
  {
    if Sequence(s, i) == w {
      var cp := Decodes(s, i);
    }
    if EncodedAt(s, i, w) {
      var cp :| Scalar(cp) && |Encode(cp)| == w && i + w <= |s| && s[i..i + w] == Encode(cp);
      EncodedIsSequence(s, i, cp);
    }
  }

  /** How far `range` advances at `i`. */
  function Width(s: string, i: nat): (w: nat)
    requires i < |s|
    ensures 1 <= w <= 4 && i + w <= |s|
  {
    if Sequence(s, i) == 0 then 1 else Sequence(s, i)
  }

  /** `len(string(r))` for the rune `r` that `range` yields at `i`. */
  function Count(s: string, i: nat): (n: nat)
    requires i < |s|
    ensures 1 <= n <= 4 && Width(s, i) <= n <= 3 * Width(s, i)
  {
    if Sequence(s, i) == 0 then 3 else Sequence(s, i)
  }

  /** `s` is well-formed UTF-8 from `i` on. */
  predicate ValidFrom(s: string, i: nat)
    decreases |s| - i
  {
    i == |s| || (i < |s| && Sequence(s, i) > 0 && ValidFrom(s, i + Sequence(s, i)))
  }

  predicate Valid(s: string) { ValidFrom(s, 0) }

  /** `k` is a rune boundary of `s`, seen from the boundary `i`. */
  predicate Boundary(s: string, i: nat, k: nat)
    requires i <= |s|
    decreases |s| - i
  {
    k == i || (i < |s| && i < k && Boundary(s, i + Width(s, i), k))
  }

  /** Where the loop stops, given its current index and its variables `size` and `end`. */
  function Cut(s: string, maxBytes: int, i: nat, size: nat, end: nat): nat
    requires i <= |s|
    decreases |s| - i
  {
    if i == |s| || size + Count(s, i) > maxBytes then end
    else Cut(s, maxBytes, i + Width(s, i), size + Count(s, i), i + Count(s, i))
  }

  function Truncate(s: string, maxBytes: int): (r: string)
    ensures r <= s
    ensures 0 < maxBytes ==> |r| <= maxBytes
  {
    if maxBytes <= 0 || |s| <= maxBytes then s
    else
      CutInRange(s, maxBytes, 0, 0, 0);
      s[..Cut(s, maxBytes, 0, 0, 0)]
  }

  /**
   No slice goes out of range: the index never runs ahead of the counted size, although
   an invalid byte has width 1, counts 3, and moves `end` 3 bytes on.
   */
  lemma {:induction false} CutInRange(s: string, maxBytes: int, i: nat, size: nat, end: nat)
    requires i <= |s| && i <= size <= maxBytes < |s| && end <= maxBytes
    ensures Cut(s, maxBytes, i, size, end) <= maxBytes
    decreases |s| - i
  {
    if i < |s| && size + Count(s, i) <= maxBytes {
      CutInRange(s, maxBytes, i + Width(s, i), size + Count(s, i), i + Count(s, i));
    }
  }

  /** At most two bytes in three are lost, plus the last three, whatever the input. */
  lemma {:induction false} CutLoss(s: string, maxBytes: int, i: nat, size: nat, end: nat)
    requires i <= |s| && i <= size <= maxBytes < |s| && size <= 3 * i && i <= end
    ensures 3 * Cut(s, maxBytes, i, size, end) >= maxBytes - 3
    decreases |s| - i
  {
    if i < |s| && size + Count(s, i) <= maxBytes {
      CutLoss(s, maxBytes, i + Width(s, i), size + Count(s, i), i + Count(s, i));
    }
  }

  method TruncateUTF8(value: string, maxBytes: int) returns (r: string)
    ensures r == Truncate(value, maxBytes)
    ensures r <= value && (0 < maxBytes ==> |r| <= maxBytes)
    ensures 0 < maxBytes < |value| ==> 3 * |r| >= maxBytes - 3
  {
    if maxBytes <= 0 || |value| <= maxBytes {
      return value;
    }
    var size: nat, end: nat, index: nat := 0, 0, 0;
    while index < |value|
      invariant index <= |value| && index <= size <= maxBytes && end <= maxBytes
      invariant Cut(value, maxBytes, index, size, end) == Cut(value, maxBytes, 0, 0, 0)
    {
      var runeSize := Count(value, index);
      if size + runeSize > maxBytes {
        break;
      }
      size := size + runeSize;
      end := index + runeSize;
      index := index + Width(value, index);
    }
    CutLoss(value, maxBytes, 0, 0, 0);
    return value[..end];
  }

  // ------------------------------------------------------- well-formed input

  /** The greatest rune boundary at or below `maxBytes`, from the boundary `i`. */
  function LastBoundary(s: string, maxBytes: nat, i: nat): (k: nat)
    requires i <= |s| && i <= maxBytes
    ensures i <= k <= |s| && k <= maxBytes
    decreases |s| - i
  {
    if i == |s| || i + Width(s, i) > maxBytes then i else LastBoundary(s, maxBytes, i + Width(s, i))
  }

  lemma {:induction false} LastBoundaryIsLongest(s: string, maxBytes: nat, i: nat)
    requires i <= |s| && i <= maxBytes
    ensures Boundary(s, i, LastBoundary(s, maxBytes, i))
    ensures forall k: nat :: Boundary(s, i, k) && k <= maxBytes ==> k <= LastBoundary(s, maxBytes, i)
    ensures maxBytes < |s| ==> maxBytes - LastBoundary(s, maxBytes, i) < 4
    decreases |s| - i
  {
    if i < |s| {
      var next := i + Width(s, i);
      if next <= maxBytes {
        LastBoundaryIsLongest(s, maxBytes, next);
      } else {
        forall k: nat | Boundary(s, i, k) && k <= maxBytes
          ensures k <= i
        {
          if k != i { BoundaryAfter(s, next, k); }
        }
      }
    }
  }

  lemma {:induction false} BoundaryAfter(s: string, i: nat, k: nat)
    requires i <= |s|
    ensures Boundary(s, i, k) ==> i <= k <= |s|
    decreases |s| - i
  {
    if k != i && i < |s| { BoundaryAfter(s, i + Width(s, i), k); }
  }

  lemma {:induction false} CutOnValid(s: string, maxBytes: nat, i: nat)
    requires i <= |s| && i <= maxBytes && ValidFrom(s, i)
    ensures Cut(s, maxBytes, i, i, i) == LastBoundary(s, maxBytes, i)
    decreases |s| - i
  {
    if i < |s| && i + Width(s, i) <= maxBytes {
      CutOnValid(s, maxBytes, i + Width(s, i));
    }
  }

  /**
   On well-formed input the result is the longest rune-aligned prefix that fits, it wastes
   fewer than four bytes of the budget when it cuts, and it is well-formed itself.
   */
  lemma TruncateIsLongestAligned(s: string, maxBytes: nat)
    requires Valid(s) && 0 < maxBytes
    ensures Boundary(s, 0, |Truncate(s, maxBytes)|)
    ensures forall k: nat :: Boundary(s, 0, k) && k <= maxBytes ==> k <= |Truncate(s, maxBytes)|
    ensures maxBytes < |s| ==> maxBytes - |Truncate(s, maxBytes)| < 4
    ensures Valid(Truncate(s, maxBytes))
  {
    if maxBytes < |s| {
      CutOnValid(s, maxBytes, 0);
      CutInRange(s, maxBytes, 0, 0, 0);
      LastBoundaryIsLongest(s, maxBytes, 0);
    } else {
      BoundaryAtEnd(s, 0);
      forall k: nat | Boundary(s, 0, k) ensures k <= |s| { BoundaryAfter(s, 0, k); }
    }
    PrefixValid(s, |Truncate(s, maxBytes)|, 0);
    assert Truncate(s, maxBytes) == s[..|Truncate(s, maxBytes)|];
  }

  lemma {:induction false} BoundaryAtEnd(s: string, i: nat)
    requires i <= |s|
    ensures Boundary(s, i, |s|)
    decreases |s| - i
  {
    if i < |s| { BoundaryAtEnd(s, i + Width(s, i)); }
  }

  /** Cutting at a boundary keeps every rune before it. */
  lemma {:induction false} PrefixValid(s: string, k: nat, i: nat)
    requires i <= |s| && k <= |s| && ValidFrom(s, i) && Boundary(s, i, k)
    ensures i <= k && ValidFrom(s[..k], i)
    decreases |s| - i
  {
    if k != i {
      var next := i + Width(s, i);
      BoundaryAfter(s, next, k);
      PrefixValid(s, k, next);
      SequenceInPrefix(s, k, i);
    }
  }

  lemma SequenceInPrefix(s: string, k: nat, i: nat)
    requires k <= |s| && i < |s| && Sequence(s, i) > 0 && i + Sequence(s, i) <= k
    ensures Sequence(s[..k], i) == Sequence(s, i)
  {
    var t := s[..k];
    assert forall j :: 0 <= j < k ==> t[j] == s[j];
  }

  lemma {:induction false} LastBoundaryInPrefix(s: string, k: nat, maxBytes: nat, i: nat)
    requires i <= |s| && i <= maxBytes <= k <= |s| && ValidFrom(s, i) && Boundary(s, i, k)
    ensures LastBoundary(s[..k], maxBytes, i) == LastBoundary(s, maxBytes, i)
    decreases |s| - i
  {
    if i < k {
      var next := i + Width(s, i);
      BoundaryAfter(s, next, k);
      SequenceInPrefix(s, k, i);
      if next <= maxBytes {
        LastBoundaryInPrefix(s, k, maxBytes, next);
      }
    } else {
      assert i == maxBytes;
    }
  }

  /** Truncating twice is truncating once, at the smaller budget. */
  lemma TruncateTwice(s: string, n: nat, m: nat)
    requires Valid(s) && 0 < n && 0 < m
    ensures Truncate(Truncate(s, n), m) == Truncate(s, if n < m then n else m)
  {
    if n < |s| {
      TruncateIsLongestAligned(s, n);
      CutOnValid(s, n, 0);
      CutInRange(s, n, 0, 0, 0);
      var k := LastBoundary(s, n, 0);
      var t := s[..k];
      assert Truncate(s, n) == t;
      if m < k {
        PrefixValid(s, k, 0);
        CutOnValid(t, m, 0);
        CutOnValid(s, m, 0);
        CutInRange(s, m, 0, 0, 0);
        LastBoundaryInPrefix(s, k, m, 0);
        var j := LastBoundary(s, m, 0);
        assert t[..j] == s[..j];
      } else if m < n {
        CutOnValid(s, m, 0);
        CutInRange(s, m, 0, 0, 0);
        SameLastBoundary(s, n, m, k);
      }
    }
  }

  lemma SameLastBoundary(s: string, n: nat, m: nat, k: nat)
    requires m <= n && k == LastBoundary(s, n, 0) && k <= m
    ensures LastBoundary(s, m, 0) == k
  {
    LastBoundaryIsLongest(s, n, 0);
    LastBoundaryIsLongest(s, m, 0);
  }

  // ------------------------------------------------------- ill-formed input

  /** What the loop has counted when it stands at the boundary `j`, from the boundary `i`. */
  function Counted(s: string, i: nat, j: nat): nat
    requires i <= |s| && Boundary(s, i, j)
    decreases |s| - i
  {
    if i == j then 0 else Count(s, i) + Counted(s, i + Width(s, i), j)
  }

  /** Every invalid byte that the loop can end on is followed by a rune boundary three bytes on. */
  ghost predicate InvalidBytesAlign(s: string) {
    forall j: nat ::
      j < |s| && Boundary(s, 0, j) && Sequence(s, j) == 0 && Counted(s, 0, j) + 3 < |s| ==> Boundary(s, 0, j + 3)
  }

  lemma {:induction false} CutPasses(s: string, maxBytes: int, i: nat, size: nat, end: nat, j: nat)
    requires i <= |s| && j < |s| && Boundary(s, i, j) && size + Counted(s, i, j) + Count(s, j) <= maxBytes
    ensures Cut(s, maxBytes, i, size, end)
         == Cut(s, maxBytes, j + Width(s, j), size + Counted(s, i, j) + Count(s, j), j + Count(s, j))
    decreases |s| - i
  {
    if i != j {
      BoundaryAfter(s, i + Width(s, i), j);
      CutPasses(s, maxBytes, i + Width(s, i), size + Count(s, i), i + Count(s, i), j);
    }
  }

  lemma {:induction false} CountedStep(s: string, i: nat, j: nat)
    requires i <= |s| && j < |s| && Boundary(s, i, j)
    ensures Boundary(s, i, j + Width(s, j)) && Counted(s, i, j + Width(s, j)) == Counted(s, i, j) + Count(s, j)
    decreases |s| - i
  {
    BoundaryAfter(s, i, j);
    if i == j {
      assert Boundary(s, j + Width(s, j), j + Width(s, j));
    } else {
      CountedStep(s, i + Width(s, i), j);
    }
  }

  lemma {:induction false} CutAligned(s: string, maxBytes: nat, i: nat, end: nat)
    requires InvalidBytesAlign(s) && maxBytes < |s| && i <= |s| && Boundary(s, 0, i) && Counted(s, 0, i) <= maxBytes
    requires Boundary(s, 0, end)
    ensures Boundary(s, 0, Cut(s, maxBytes, i, Counted(s, 0, i), end))
    decreases |s| - i
  {
    if i < |s| && Counted(s, 0, i) + Count(s, i) <= maxBytes {
      CountedStep(s, 0, i);
      CutAligned(s, maxBytes, i + Width(s, i), i + Count(s, i));
    }
  }

  /**
   On arbitrary bytes: the cut falls on a rune boundary for every budget exactly if each invalid byte
   that the loop can end on has a boundary three bytes on, because `end` moves by the three bytes that
   the replacement rune counts.
   */
  lemma AlignedExactlyWhen(s: string)
    ensures (forall maxBytes: nat :: 0 < maxBytes ==> Boundary(s, 0, |Truncate(s, maxBytes)|)) <==> InvalidBytesAlign(s)
  {
    if InvalidBytesAlign(s) {
      forall maxBytes: nat | 0 < maxBytes
        ensures Boundary(s, 0, |Truncate(s, maxBytes)|)
      {
        BoundaryAtEnd(s, 0);
        if maxBytes < |s| {
          CutInRange(s, maxBytes, 0, 0, 0);
          CutAligned(s, maxBytes, 0, 0);
        }
      }
    } else {
      var j: nat :|
        j < |s| && Boundary(s, 0, j) && Sequence(s, j) == 0 && Counted(s, 0, j) + 3 < |s| && !Boundary(s, 0, j + 3);
      var maxBytes := Counted(s, 0, j) + 3;
      CutPasses(s, maxBytes, 0, 0, 0, j);
      CutInRange(s, maxBytes, 0, 0, 0);
      assert |Truncate(s, maxBytes)| == j + 3;
    }
  }

  /** The last rune that the loop counts, from the boundary `i` on. */
  function LastCounted(s: string, maxBytes: int, i: nat, size: nat): (j: Option<nat>)
    requires i <= |s|
    ensures j.Some? ==> i <= j.value < |s|
    decreases |s| - i
  {
    if i == |s| || size + Count(s, i) > maxBytes then None
    else
      var later := LastCounted(s, maxBytes, i + Width(s, i), size + Count(s, i));
      if later.Some? then later else Some(i)
  }

  /** The cut follows that rune by as many bytes as were counted for it. */
  lemma {:induction false} CutAfterLast(s: string, maxBytes: int, i: nat, size: nat, end: nat)
    requires i <= |s|
    ensures var j := LastCounted(s, maxBytes, i, size);
      && Cut(s, maxBytes, i, size, end) == (if j.None? then end else j.value + Count(s, j.value))
      && (j.Some? ==> Boundary(s, i, j.value))
    decreases |s| - i
  {
    if i < |s| && size + Count(s, i) <= maxBytes {
      CutAfterLast(s, maxBytes, i + Width(s, i), size + Count(s, i), i + Count(s, i));
    }
  }

  /**
   For one budget: the cut falls on a rune boundary exactly if nothing is cut, or no rune fits, or the last rune
   counted is well-formed, or it is an invalid byte with a boundary three bytes on.
   */
  lemma AlignedAtExactlyWhen(s: string, maxBytes: nat)
    requires 0 < maxBytes
    ensures var j := LastCounted(s, maxBytes, 0, 0);
      var aligned := |s| <= maxBytes || j.None? || Sequence(s, j.value) > 0 || Boundary(s, 0, j.value + 3);
      Boundary(s, 0, |Truncate(s, maxBytes)|) <==> aligned
  {
    BoundaryAtEnd(s, 0);
    if maxBytes < |s| {
      CutInRange(s, maxBytes, 0, 0, 0);
      CutAfterLast(s, maxBytes, 0, 0, 0);
      var j := LastCounted(s, maxBytes, 0, 0);
      if j.Some? { CountedStep(s, 0, j.value); }
    }
  }

  /** Letters are runes of one byte each, counted as one. */
  lemma {:induction false} LettersPass(s: string, n: nat, maxBytes: int, i: nat, k: nat)
    requires i <= n <= |s| && n <= maxBytes && n <= k && forall j :: 0 <= j < n ==> s[j] == 'a'
    ensures Cut(s, maxBytes, i, i, i) == Cut(s, maxBytes, n, n, n)
    ensures Boundary(s, i, k) <==> Boundary(s, n, k)
    decreases n - i
  {
    if i < n {
      assert Sequence(s, i) == 1;
      LettersPass(s, n, maxBytes, i + 1, k);
    }
  }

  /**
   An example at every budget from 3 on, such as 256 and 512: after letters, an invalid byte makes the cut fall
   inside the two-byte rune that follows.
   */
  lemma InvalidInputCanBeSplit(letters: string, s: string)
    requires forall j :: 0 <= j < |letters| ==> letters[j] == 'a'
    requires s == letters + [0xFF as char, 'a', 0xC3 as char, 0xA9 as char]
    ensures var n := |letters|;
      |Truncate(s, n + 3)| == n + 3 && !Boundary(s, 0, n + 3) && Boundary(s, 0, n + 2)
  {
    var n := |letters|;
    assert s[n] == 0xFF as char && s[n + 1] == 'a' && s[n + 2] == 0xC3 as char && s[n + 3] == 0xA9 as char;
    assert Sequence(s, n) == 0 && Sequence(s, n + 1) == 1 && Sequence(s, n + 2) == 2;
    LettersPass(s, n, n + 3, 0, n + 2);
    LettersPass(s, n, n + 3, 0, n + 3);
    assert Cut(s, n + 3, n + 1, n + 3, n + 3) == n + 3;
    BoundaryStep(s, n, n + 2);
    BoundaryStep(s, n + 1, n + 2);
    BoundaryStep(s, n, n + 3);
    BoundaryStep(s, n + 1, n + 3);
    BoundaryStep(s, n + 2, n + 3);
    BoundaryAfter(s, n + 4, n + 3);
  }

  lemma BoundaryStep(s: string, i: nat, k: nat)
    requires i < |s| && i < k
    ensures Boundary(s, i, k) <==> Boundary(s, i + Width(s, i), k)
  {
  }

  // ----------------------------------------------------------- concatenation

  lemma {:induction false} ValidConcatFrom(a: string, b: string, i: nat)
    requires i <= |a| && ValidFrom(a, i) && Valid(b)
    ensures ValidFrom(a + b, i)
    decreases |a| - i
  {
    if i == |a| {
      ValidShift(a, b, 0);
    } else {
      ValidConcatFrom(a, b, i + Sequence(a, i));
      assert (a + b)[..|a|] == a;
      SequenceExtends(a, b, i);
    }
  }

  lemma SequenceExtends(a: string, b: string, i: nat)
    requires i < |a| && Sequence(a, i) > 0
    ensures Sequence(a + b, i) == Sequence(a, i)
  {
    var t := a + b;
    assert forall j :: 0 <= j < |a| ==> t[j] == a[j];
  }

  lemma {:induction false} ValidShift(a: string, b: string, i: nat)
    requires i <= |b| && ValidFrom(b, i)
    ensures ValidFrom(a + b, |a| + i)
    decreases |b| - i
  {
    if i < |b| {
      var t := a + b;
      assert forall j :: 0 <= j < |b| ==> t[|a| + j] == b[j];
      ValidShift(a, b, i + Sequence(b, i));
    }
  }

  lemma ValidConcat(a: string, b: string)
    requires Valid(a) && Valid(b)
    ensures Valid(a + b)
  {
    ValidConcatFrom(a, b, 0);
  }
}
