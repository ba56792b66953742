/**
 Byte strings as the sidecar's Go code sees them.

 A Go string is a sequence of bytes.  Here it is a Dafny `string` whose characters
 carry the byte values 0..255; nothing below relies on that bound, so every
 statement holds for all Dafny strings.
 */
module Text {
  import opened Runes

  /** `b` is exactly the UTF-8 encoding of one rune for which unicode.IsSpace holds. */
  predicate SpaceRune(b: string) {
    if |b| == 1 then
      9 <= b[0] as int <= 13 || b[0] as int == 32
    else if |b| == 2 then
      b[0] as int == 0xC2 && (b[1] as int == 0x85 || b[1] as int == 0xA0)
    else if |b| == 3 then
      var x, y, z := b[0] as int, b[1] as int, b[2] as int;
      || (x == 0xE1 && y == 0x9A && z == 0x80)
      || (x == 0xE2 && y == 0x80 && (0x80 <= z <= 0x8A || z == 0xA8 || z == 0xA9 || z == 0xAF))
      || (x == 0xE2 && y == 0x81 && z == 0x9F)
      || (x == 0xE3 && y == 0x80 && z == 0x80)
    else
      false
  }

  /** These are exactly the encodings of white space. */
  lemma SpaceRuneIsEncoded(b: string)
    ensures SpaceRune(b) <==> exists cp :: Scalar(cp) && WhiteSpace(cp) && b == Encode(cp)
  {
    if SpaceRune(b) { var cp := SpacePoint(b); }
    if cp :| Scalar(cp) && WhiteSpace(cp) && b == Encode(cp) { WhiteSpaceIsRune(cp); }
  }

  lemma WhiteSpaceIsRune(cp: int)
    requires Scalar(cp) && WhiteSpace(cp)
    ensures SpaceRune(Encode(cp))
  {
  }

  lemma SpacePoint(b: string) returns (cp: int)
    requires SpaceRune(b)
    ensures Scalar(cp) && WhiteSpace(cp) && b == Encode(cp)
  {
    if |b| == 1 {
      cp := b[0] as int;
    } else if |b| == 2 {
      cp := b[1] as int;
    } else {
      cp := (b[0] as int - 0xE0) * 4096 + (b[1] as int - 0x80) * 64 + (b[2] as int - 0x80);
    }
  }

  function TrimLeft(s: string): (r: string)
    ensures |r| <= |s|
    decreases |s|, 4
  {
    TrimLeftRune(s, 1)
  }

  /** Drops the white-space rune at the start of `s`, if it is at least `w` bytes wide. */
  function TrimLeftRune(s: string, w: nat): (r: string)
    requires 1 <= w <= 4
    ensures |r| <= |s|
    decreases |s|, 4 - w
  {
    if w == 4 then s
    else if w <= |s| && SpaceRune(s[..w]) then TrimLeft(s[w..])
    else TrimLeftRune(s, w + 1)
  }

  function TrimRight(s: string): (r: string)
    ensures |r| <= |s|
    decreases |s|, 4
  {
    TrimRightRune(s, 1)
  }

  function TrimRightRune(s: string, w: nat): (r: string)
    requires 1 <= w <= 4
    ensures |r| <= |s|
    decreases |s|, 4 - w
  {
    if w == 4 then s
    else if w <= |s| && SpaceRune(s[|s| - w..]) then TrimRight(s[..|s| - w])
    else TrimRightRune(s, w + 1)
  }

  /** strings.TrimSpace */
  function Trim(s: string): (r: string)
    ensures |r| <= |s|
  {
    TrimRight(TrimLeft(s))
  }

  /** The test `strings.TrimSpace(s) == ""`. */
  predicate Blank(s: string) {
    Trim(s) == ""
  }

  /** Width of the white-space rune that `s` starts with, or 0; no such rune starts another. */
  function SpaceAt(s: string): (w: nat)
    ensures w <= |s| && (w > 0 ==> SpaceRune(s[..w]))
  {
    if |s| >= 1 && SpaceRune(s[..1]) then 1
    else if |s| >= 2 && SpaceRune(s[..2]) then 2
    else if |s| >= 3 && SpaceRune(s[..3]) then 3
    else 0
  }

  lemma SpaceAtIs(s: string, w: nat)
    requires 1 <= w <= |s| && SpaceRune(s[..w])
    ensures SpaceAt(s) == w
  {
    assert s[..w][0] == s[0];
    assert forall v :: 1 <= v <= |s| ==> s[..v][0] == s[0];
  }

  /** `s` consists of white-space runes. */
  predicate Spaces(s: string)
    decreases |s|, 1
  {
    s == "" || SpacesFrom(s)
  }

  predicate SpacesFrom(s: string)
    decreases |s|, 0
  {
    SpaceAt(s) > 0 && Spaces(s[SpaceAt(s)..])
  }

  lemma SpacesCons(s: string, w: nat)
    requires 1 <= w <= |s| && SpaceRune(s[..w])
    ensures Spaces(s) <==> Spaces(s[w..])
  {
    SpaceAtIs(s, w);
    assert Spaces(s) == SpacesFrom(s);
  }

  lemma {:induction false} SpacesJoin(a: string, b: string)
    requires Spaces(a) && Spaces(b)
    ensures Spaces(a + b)
    decreases |a|
  {
    if a == "" {
      assert a + b == b;
    } else {
      assert SpacesFrom(a);
      var w := SpaceAt(a);
      SpacesJoin(a[w..], b);
      assert (a + b)[..w] == a[..w] && (a + b)[w..] == a[w..] + b;
      SpacesCons(a + b, w);
    }
  }

  lemma SpacesStart(s: string)
    requires Spaces(s)
    ensures s == "" || 1 <= SpaceAt(s)
  {
    if s != "" { assert SpacesFrom(s); }
  }

  /** `r` is what is left of `s` when white space is dropped from the front. */
  predicate LeftOf(s: string, r: string) {
    |r| <= |s| && r == s[|s| - |r|..] && Spaces(s[..|s| - |r|])
  }

  /** `r` is what is left of `s` when white space is dropped from the end. */
  predicate RightOf(s: string, r: string) {
    |r| <= |s| && r == s[..|r|] && Spaces(s[|r|..])
  }

  lemma LeftOfNext(s: string, w: nat, r: string)
    requires 1 <= w <= |s| && SpaceRune(s[..w]) && LeftOf(s[w..], r)
    ensures LeftOf(s, r)
  {
    var front := s[..|s| - |r|];
    assert front[..w] == s[..w] && front[w..] == s[w..][..|s| - w - |r|];
    SpacesCons(front, w);
  }

  lemma RightOfItself(s: string)
    ensures RightOf(s, s)
  {
    assert s[|s|..] == "" && s[..|s|] == s;
  }

  lemma RightOfNext(s: string, w: nat, r: string)
    requires 1 <= w <= |s| && SpaceRune(s[|s| - w..]) && RightOf(s[..|s| - w], r)
    ensures RightOf(s, r)
  {
    var front, last := s[..|s| - w], s[|s| - w..];
    assert last[..w] == last && last[w..] == "";
    SpacesCons(last, w);
    SpacesJoin(front[|r|..], last);
    assert s[|r|..] == front[|r|..] + last;
  }

  lemma {:induction false} TrimLeftDrops(s: string, w: nat)
    requires 1 <= w <= 4
    ensures LeftOf(s, TrimLeftRune(s, w))
    decreases |s|, 4 - w
  {
    if w == 4 {
      assert s[..0] == "";
    } else if w <= |s| && SpaceRune(s[..w]) {
      TrimLeftDrops(s[w..], 1);
      LeftOfNext(s, w, TrimLeft(s[w..]));
    } else {
      TrimLeftDrops(s, w + 1);
    }
  }

  /** Nothing is left of a text that is only white space. */
  lemma {:induction false} TrimLeftDropsAll(s: string, w: nat)
    requires 1 <= w <= 4 && Spaces(s) && (s == "" || w <= SpaceAt(s))
    ensures TrimLeftRune(s, w) == ""
    decreases |s|, 4 - w
  {
    if w < 4 {
      if w <= |s| && SpaceRune(s[..w]) {
        SpacesCons(s, w);
        SpacesStart(s[w..]);
        TrimLeftDropsAll(s[w..], 1);
      } else {
        TrimLeftDropsAll(s, w + 1);
      }
    }
  }

  lemma {:induction false} TrimRightDrops(s: string, w: nat)
    requires 1 <= w <= 4
    ensures RightOf(s, TrimRightRune(s, w))
    decreases |s|, 4 - w
  {
    if w == 4 {
      RightOfItself(s);
    } else if w <= |s| && SpaceRune(s[|s| - w..]) {
      var front := s[..|s| - w];
      TrimRightDrops(front, 1);
      RightOfNext(s, w, TrimRight(front));
    } else {
      TrimRightDrops(s, w + 1);
    }
  }

  lemma Sandwich(s: string, t: string, r: string) returns (before: string, after: string)
    requires LeftOf(s, t) && RightOf(t, r)
    ensures s == before + r + after && Spaces(before) && Spaces(after)
  {
    before, after := s[..|s| - |t|], t[|r|..];
  }

  /** No white-space rune stands at the start of `s`. */
  predicate CleanStart(s: string) {
    forall w :: 1 <= w <= 3 && w <= |s| ==> !SpaceRune(s[..w])
  }

  function Ending(s: string, w: nat): string
    requires w <= |s|
  {
    s[|s| - w..]
  }

  predicate EndsInSpace(s: string, w: nat) {
    w <= |s| && SpaceRune(Ending(s, w))
  }

  /** No white-space rune stands at the end of `s`. */
  predicate CleanEnd(s: string) {
    !EndsInSpace(s, 1) && !EndsInSpace(s, 2) && !EndsInSpace(s, 3)
  }

  lemma {:induction false} TrimLeftCleans(s: string, w: nat)
    requires 1 <= w <= 4 && forall v :: 1 <= v < w && v <= |s| ==> !SpaceRune(s[..v])
    ensures CleanStart(TrimLeftRune(s, w))
    decreases |s|, 4 - w
  {
    if w < 4 {
      if w <= |s| && SpaceRune(s[..w]) { TrimLeftCleans(s[w..], 1); } else { TrimLeftCleans(s, w + 1); }
    }
  }

  lemma TrimRightNext(s: string)
    ensures TrimRight(s) ==
      if EndsInSpace(s, 1) then TrimRight(s[..|s| - 1])
      else if EndsInSpace(s, 2) then TrimRight(s[..|s| - 2])
      else if EndsInSpace(s, 3) then TrimRight(s[..|s| - 3])
      else s
  {
    assert TrimRight(s) == TrimRightRune(s, 1);
    if !EndsInSpace(s, 1) {
      assert TrimRightRune(s, 1) == TrimRightRune(s, 2);
      if !EndsInSpace(s, 2) { assert TrimRightRune(s, 2) == TrimRightRune(s, 3); }
    }
  }

  lemma {:induction false} TrimRightCleans(s: string)
    ensures CleanEnd(TrimRight(s))
    decreases |s|
  {
    TrimRightNext(s);
    if EndsInSpace(s, 1) {
      TrimRightCleans(s[..|s| - 1]);
    } else if EndsInSpace(s, 2) {
      TrimRightCleans(s[..|s| - 2]);
    } else if EndsInSpace(s, 3) {
      TrimRightCleans(s[..|s| - 3]);
    }
  }

  lemma CleanPrefix(s: string, r: string)
    requires CleanStart(s) && RightOf(s, r)
    ensures CleanStart(r)
  {
    assert forall w :: 1 <= w <= |r| ==> r[..w] == s[..w];
  }

  /** Trimming takes away white space only, at the two ends, and all of it there. */
  lemma TrimDrops(s: string) returns (before: string, after: string)
    ensures s == before + Trim(s) + after && Spaces(before) && Spaces(after)
    ensures CleanStart(Trim(s)) && CleanEnd(Trim(s))
  {
    var t := TrimLeft(s);
    TrimLeftDrops(s, 1);
    TrimRightDrops(t, 1);
    TrimLeftCleans(s, 1);
    TrimRightCleans(t);
    CleanPrefix(t, Trim(s));
    before, after := Sandwich(s, t, Trim(s));
  }

  /** A text is blank exactly if it consists of white-space runes. */
  lemma BlankIsAllSpaces(s: string)
    ensures Blank(s) <==> Spaces(s)
  {
    if Blank(s) {
      var before, after := TrimDrops(s);
      assert s == before + after;
      SpacesJoin(before, after);
    } else if Spaces(s) {
      SpacesStart(s);
      TrimLeftDropsAll(s, 1);
      assert false;
    }
  }

  function LowerChar(c: char): char {
    if 'A' <= c <= 'Z' then (c as int + 32) as char else c
  }

  /**
   strings.ToLower, as far as a comparison with an ASCII literal can observe it:
   ASCII letters, and the only two other runes whose lower case is ASCII
   (U+0130 gives 'i', U+212A gives 'k').
   */
  function Lower(s: string): string
    decreases |s|, 1
  {
    if s == "" then "" else LowerRune(s)
  }

  function LowerRune(s: string): string
    requires s != ""
    decreases |s|, 0
  {
    if |s| >= 2 && s[0] as int == 0xC4 && s[1] as int == 0xB0 then "i" + Lower(s[2..])
    else if |s| >= 3 && s[0] as int == 0xE2 && s[1] as int == 0x84 && s[2] as int == 0xAA then "k" + Lower(s[3..])
    else [LowerChar(s[0])] + Lower(s[1..])
  }

  /** A word of lower-case ASCII letters. */
  predicate Word(s: string) {
    s != "" && forall i :: 0 <= i < |s| ==> 'a' <= s[i] <= 'z'
  }

  lemma {:induction false} LowerWord(s: string)
    requires s == "" || Word(s)
    ensures Lower(s) == s
    decreases |s|
  {
    if s != "" {
      LowerWord(s[1..]);
      assert Lower(s) == LowerRune(s) == [s[0]] + s[1..];
    }
  }

  lemma WordHasNoSpace(s: string, w: nat)
    requires Word(s) && 1 <= w <= 3 && w <= |s|
    ensures !SpaceRune(s[..w]) && !SpaceRune(s[|s| - w..])
  {
    assert s[..w][0] == s[0] && s[|s| - w..][0] == s[|s| - w];
  }

  lemma TrimWord(s: string)
    requires Word(s)
    ensures Trim(s) == s
  {
    forall w | 1 <= w <= 3 && w <= |s|
      ensures !SpaceRune(s[..w]) && !SpaceRune(s[|s| - w..])
    {
      WordHasNoSpace(s, w);
    }
    assert TrimLeftRune(s, 4) == TrimLeftRune(s, 3) == TrimLeftRune(s, 2) == TrimLeftRune(s, 1) == TrimLeft(s);
    assert TrimRightRune(s, 4) == TrimRightRune(s, 3) == TrimRightRune(s, 2) == TrimRightRune(s, 1) == TrimRight(s);
  }

  /** A word passes through trimming and lower-casing, as role names do. */
  lemma RoleWord(s: string)
    requires Word(s)
    ensures Lower(Trim(s)) == s && !Blank(s)
  {
    TrimWord(s);
    LowerWord(s);
  }

  // ---------------------------------------------- what lower case amounts to

  /** `c` is the lower-case ASCII letter or other ASCII character `w`, or its upper-case form. */
  predicate SameLetter(c: char, w: char) {
    c == w || ('A' <= c <= 'Z' && c as int + 32 == w as int)
  }

  /** ASCII text without upper-case letters, as all literals of the program are. */
  predicate Literal(word: string) {
    forall i :: 0 <= i < |word| ==> (word[i] as int) < 0x80 && !('A' <= word[i] <= 'Z')
  }

  /** `s` is `word`, in any mixture of upper and lower case. */
  predicate SameLetters(s: string, word: string) {
    |s| == |word| && forall i :: 0 <= i < |s| ==> SameLetter(s[i], word[i])
  }

  /** `s` starts with `word` in any case; U+0130 counts as an 'i' and U+212A as a 'k'. */
  predicate Reads(s: string, word: string)
    decreases |word|
  {
    || word == ""
    || (s != "" && SameLetter(s[0], word[0]) && Reads(s[1..], word[1..]))
    || (word[0] == 'i' && |s| >= 2 && s[0] as int == 0xC4 && s[1] as int == 0xB0 && Reads(s[2..], word[1..]))
    || (word[0] == 'k' && |s| >= 3 && s[0] as int == 0xE2 && s[1] as int == 0x84 && s[2] as int == 0xAA
        && Reads(s[3..], word[1..]))
  }

  /** `word` occurs in `s` in that sense. */
  predicate HasWord(s: string, word: string) {
    exists i :: 0 <= i <= |s| && Reads(s[i..], word)
  }

  lemma PrefixStep(c: char, rest: string, word: string)
    requires word != ""
    ensures word <= [c] + rest <==> c == word[0] && word[1..] <= rest
  {
    var t := [c] + rest;
    assert t[1..] == rest;
    if word <= t { assert t[..|word|] == word && word[1..] == rest[..|word| - 1]; }
    if c == word[0] && word[1..] <= rest { assert word == [c] + word[1..]; }
  }

  /** What `s` starts with is what its lower case starts with. */
  lemma {:induction false} ReadsIsPrefix(s: string, word: string)
    requires Literal(word)
    ensures Reads(s, word) <==> word <= Lower(s)
    decreases |s|
  {
    if s != "" && word != "" {
      assert Lower(s) == LowerRune(s);
      if |s| >= 2 && s[0] as int == 0xC4 && s[1] as int == 0xB0 {
        PrefixStep('i', Lower(s[2..]), word);
        ReadsIsPrefix(s[2..], word[1..]);
      } else if |s| >= 3 && s[0] as int == 0xE2 && s[1] as int == 0x84 && s[2] as int == 0xAA {
        PrefixStep('k', Lower(s[3..]), word);
        ReadsIsPrefix(s[3..], word[1..]);
      } else {
        PrefixStep(LowerChar(s[0]), Lower(s[1..]), word);
        ReadsIsPrefix(s[1..], word[1..]);
      }
    }
  }

  lemma HasWordStep(s: string, word: string, w: nat)
    requires Literal(word) && word != "" && 1 <= w <= |s|
    requires forall i :: 1 <= i < w ==> s[i] as int >= 0x80 && s[i] as int != 0xC4 && s[i] as int != 0xE2
    ensures HasWord(s, word) <==> Reads(s, word) || HasWord(s[w..], word)
  {
    assert s[0..] == s;
    forall i | 1 <= i < w
      ensures !Reads(s[i..], word)
    {
      assert s[i..][0] == s[i];
    }
    if HasWord(s, word) {
      var i :| 0 <= i <= |s| && Reads(s[i..], word);
      if i >= w { assert s[w..][i - w..] == s[i..]; }
    }
    if HasWord(s[w..], word) {
      var i :| 0 <= i <= |s[w..]| && Reads(s[w..][i..], word);
      assert s[w..][i..] == s[w + i..];
    }
  }

  /** strings.Contains on a lower-cased text looks for the word in any case. */
  lemma {:induction false} ContainsIsHasWord(s: string, word: string)
    requires Literal(word) && word != ""
    ensures Contains(Lower(s), word) <==> HasWord(s, word)
    decreases |s|
  {
    ReadsIsPrefix(s, word);
    if s == "" {
      assert s[0..] == "";
    } else {
      assert Lower(s) == LowerRune(s);
      var w := if |s| >= 2 && s[0] as int == 0xC4 && s[1] as int == 0xB0 then 2
               else if |s| >= 3 && s[0] as int == 0xE2 && s[1] as int == 0x84 && s[2] as int == 0xAA then 3 else 1;
      assert Lower(s)[1..] == Lower(s[w..]);
      HasWordStep(s, word, w);
      ContainsIsHasWord(s[w..], word);
    }
  }

  /** On ASCII text this is a slice that spells the word. */
  lemma {:induction false} ReadsAscii(s: string, word: string)
    requires forall i :: 0 <= i < |s| ==> (s[i] as int) < 0x80
    ensures Reads(s, word) <==> |word| <= |s| && SameLetters(s[..|word|], word)
    decreases |word|
  {
    if word != "" && s != "" {
      ReadsAscii(s[1..], word[1..]);
      if |word| <= |s| {
        var a, b := s[..|word|], s[1..][..|word| - 1];
        assert a == [s[0]] + b;
      }
    }
  }

  /** Lower case is taken letter by letter on ASCII text. */
  lemma {:induction false} LowerAscii(s: string)
    requires forall i :: 0 <= i < |s| ==> (s[i] as int) < 0x80
    ensures |Lower(s)| == |s|
    ensures forall i :: 0 <= i < |s| ==> SameLetter(s[i], Lower(s)[i]) && !('A' <= Lower(s)[i] <= 'Z')
    decreases |s|
  {
    if s != "" {
      LowerAscii(s[1..]);
      assert Lower(s) == LowerRune(s) == [LowerChar(s[0])] + Lower(s[1..]);
    }
  }

  lemma LowerEmpty(s: string)
    ensures Lower(s) == "" <==> s == ""
  {
    if s != "" { assert Lower(s) == LowerRune(s); }
  }

  /** strings.EqualFold against a literal without 'k' or 's', whose folding orbits are ASCII. */
  predicate EqualFold(s: string, literal: string) {
    && |s| == |literal|
    && forall i :: 0 <= i < |s| ==> LowerChar(s[i]) == LowerChar(literal[i])
  }

  lemma EqualFoldIsSameLetters(s: string, literal: string)
    requires Literal(literal)
    ensures EqualFold(s, literal) <==> SameLetters(s, literal)
  {
  }

  /** strings.Contains */
  predicate Contains(s: string, sub: string) {
    sub <= s || (s != "" && Contains(s[1..], sub))
  }

  // ---------------------------------------------------------------- decimals

  function Digit(n: nat): (c: char)
    requires n < 10
    ensures '0' <= c <= '9' && c as int == n + 48
  {
    (n + 48) as char
  }

  /** The `%d` rendering of a natural number. */
  function Decimal(n: nat): (r: string)
    ensures |r| > 0
    ensures forall i :: 0 <= i < |r| ==> '0' <= r[i] <= '9'
    decreases n, 1
  {
    if n < 10 then [Digit(n)] else DecimalTens(n)
  }

  function DecimalTens(n: nat): (r: string)
    requires n >= 10
    ensures |r| > 0
    ensures forall i :: 0 <= i < |r| ==> '0' <= r[i] <= '9'
    decreases n, 0
  {
    Decimal(n / 10) + [Digit(n % 10)]
  }

  function Value(s: string): int {
    if s == "" then 0 else 10 * Value(s[..|s| - 1]) + (s[|s| - 1] as int - 48)
  }

  lemma {:induction false} DecimalValue(n: nat)
    ensures Value(Decimal(n)) == n
  {
    if n < 10 {
      var d := Decimal(n);
      assert d[..|d| - 1] == "";
    } else {
      DecimalValue(n / 10);
      var d := DecimalTens(n);
      assert Decimal(n) == d && d[..|d| - 1] == Decimal(n / 10);
    }
  }

  lemma DecimalInjective(m: nat, n: nat)
    requires Decimal(m) == Decimal(n)
    ensures m == n
  {
    DecimalValue(m);
    DecimalValue(n);
  }

  /** A separator that occurs in neither tail determines where a string was joined. */
  lemma JoinedAtLast(a: string, c: char, x: string, b: string, y: string)
    requires a + [c] + x == b + [c] + y
    requires c !in x && c !in y
    ensures a == b && x == y
  {
    var s := a + [c] + x;
    var t := b + [c] + y;
    assert s[|a|] == c && t[|b|] == c;
    assert forall j :: |a| < j < |s| ==> s[j] == x[j - |a| - 1];
    assert forall j :: |b| < j < |t| ==> t[j] == y[j - |b| - 1];
    assert a == s[..|a|] && b == t[..|b|];
    assert x == s[|a| + 1..] && y == t[|b| + 1..];
  }
}
