/**
 Reading a request body for capture without disturbing it (proxy.go:127-167).

 A stream delivers its bytes in chunks of its own choosing and then one final condition, which every
 later read repeats.  The last chunk may arrive together with that condition.
 */
module BodyCapture {
  import opened Common
  import opened Text

  datatype End = Eof | Broken(code: int)

  datatype Source = Source(chunks: seq<string>, end: End, joined: bool)

  function Flatten(chunks: seq<string>): string {
    if chunks == [] then "" else chunks[0] + Flatten(chunks[1..])
  }

  function Content(s: Source): string { Flatten(s.chunks) }

  /** One Read call: the bytes, the final condition if it was reported, and what is left. */
  datatype Got<S> = Got(data: string, end: Option<End>, rest: S)

  function Read(s: Source, n: nat): (g: Got<Source>)
    requires n > 0
    ensures |g.data| <= n
  {
    if s.chunks == [] then Got("", Some(s.end), s)
    else
      var c, more := s.chunks[0], s.chunks[1..];
      if |c| > n then Got(c[..n], None, s.(chunks := [c[n..]] + more))
      else Got(c, if more == [] && s.joined then Some(s.end) else None, s.(chunks := more))
  }

  /** Reading splits the content; a reported end is the true one, and comes after the last byte. */
  lemma ReadSplits(s: Source, n: nat)
    requires n > 0
    ensures var g := Read(s, n);
      && g.data + Content(g.rest) == Content(s) && g.rest.end == s.end
      && (g.end.Some? ==> g.end.value == s.end && g.rest.chunks == [])
      && (g.end.None? ==> |Content(g.rest)| + |g.rest.chunks| < |Content(s)| + |s.chunks|)
  {
    if s.chunks != [] {
      var c, more := s.chunks[0], s.chunks[1..];
      if |c| > n {
        var rest := [c[n..]] + more;
        assert rest[1..] == more && c[..n] + c[n..] == c;
        assert c[..n] + (c[n..] + Flatten(more)) == c + Flatten(more);
      }
    }
  }

  // ------------------------------------------------------------ request bodies

  /** The body of a request: its stream, a read prefix followed by its stream, or buffered bytes. */
  datatype Body =
    | NilBody
    | Original(source: Source)
    | Preserved(prefix: string, source: Source)
    | Buffered(data: string)

  /** All the bytes a reader of the body gets, and the condition it ends with. */
  function Readable(b: Body): (string, End) {
    match b
    case NilBody => ("", Eof)
    case Original(s) => (Content(s), s.end)
    case Preserved(prefix, s) => (prefix + Content(s), s.end)
    case Buffered(data) => (data, Eof)
  }

  /** Read on a body; io.MultiReader turns to the stream once the prefix is used up. */
  function ReadBody(b: Body, n: nat): Got<Body>
    requires n > 0
  {
    match b
    case NilBody => Got("", Some(Eof), b)
    case Original(s) => var g := Read(s, n); Got(g.data, g.end, Original(g.rest))
    case Preserved(prefix, s) =>
      if prefix == "" then var g := Read(s, n); Got(g.data, g.end, Preserved("", g.rest))
      else if |prefix| > n then Got(prefix[..n], None, Preserved(prefix[n..], s))
      else Got(prefix, None, Preserved("", s))
    case Buffered(data) =>
      if data == "" then Got("", Some(Eof), b)
      else if |data| > n then Got(data[..n], None, Buffered(data[n..]))
      else Got(data, None, Buffered(""))
  }

  /** A consumer that reads with these buffer sizes, up to the end if it gets there. */
  function Consume(b: Body, sizes: seq<nat>): (string, Option<End>)
    requires forall i :: 0 <= i < |sizes| ==> sizes[i] > 0
    decreases |sizes|
  {
    if sizes == [] then ("", None)
    else
      var g := ReadBody(b, sizes[0]);
      if g.end.Some? then (g.data, g.end)
      else var more := Consume(g.rest, sizes[1..]); (g.data + more.0, more.1)
  }

  /**
   `Readable` is what consumers see: with any buffer sizes they get a prefix of it, and when the end is
   reported they have got all of it, with its final condition.
   */
  lemma {:induction false} ConsumersSeeReadable(b: Body, sizes: seq<nat>)
    requires forall i :: 0 <= i < |sizes| ==> sizes[i] > 0
    ensures Consume(b, sizes).0 <= Readable(b).0
    ensures Consume(b, sizes).1.Some? ==> Consume(b, sizes) == (Readable(b).0, Some(Readable(b).1))
    decreases |sizes|
  {
    if sizes != [] {
      BodySplits(b, sizes[0]);
      var g := ReadBody(b, sizes[0]);
      if g.end.None? { ConsumersSeeReadable(g.rest, sizes[1..]); }
    }
  }

  /** What a body can still deliver, bytes and chunks. */
  function Pending(b: Body): nat {
    match b
    case NilBody => 0
    case Original(s) => |Content(s)| + |s.chunks|
    case Preserved(prefix, s) => |prefix| + |Content(s)| + |s.chunks|
    case Buffered(data) => |data|
  }

  /** Consumers do reach the end: one read more than there is to deliver is enough. */
  lemma {:induction false} ConsumersReachTheEnd(b: Body, sizes: seq<nat>)
    requires forall i :: 0 <= i < |sizes| ==> sizes[i] > 0
    requires |sizes| > Pending(b)
    ensures Consume(b, sizes) == (Readable(b).0, Some(Readable(b).1))
    decreases |sizes|
  {
    var g := ReadBody(b, sizes[0]);
    if b.Original? || b.Preserved? { ReadSplits(b.source, sizes[0]); }
    if g.end.None? { ConsumersReachTheEnd(g.rest, sizes[1..]); }
    ConsumersSeeReadable(b, sizes);
  }

  lemma BodySplits(b: Body, n: nat)
    requires n > 0
    ensures var g := ReadBody(b, n);
      && g.data + Readable(g.rest).0 == Readable(b).0 && Readable(g.rest).1 == Readable(b).1
      && (g.end.Some? ==> g.end.value == Readable(b).1 && g.data == Readable(b).0)
  {
    match b
    case NilBody =>
    case Original(s) => ReadSplits(s, n);
    case Preserved(prefix, s) =>
      if prefix == "" {
        ReadSplits(s, n);
      } else if |prefix| > n {
        TakeApart(prefix, n, Content(s));
      }
    case Buffered(data) =>
      if |data| > n { assert data[..n] + data[n..] == data; }
  }

  lemma TakeApart(prefix: string, n: nat, rest: string)
    requires n <= |prefix|
    ensures prefix[..n] + (prefix[n..] + rest) == prefix + rest
  {
    assert prefix[..n] + prefix[n..] == prefix;
  }

  // ------------------------------------------------------------------ capture

  const MAX_INT64 := 0x7FFF_FFFF_FFFF_FFFF

  predicate Int64(n: int) { -MAX_INT64 - 1 <= n <= MAX_INT64 }

  /** `n + 1` in 64-bit arithmetic. */
  function Successor(n: int): int
    requires Int64(n)
  {
    if n == MAX_INT64 then -MAX_INT64 - 1 else n + 1
  }

  /** The content types that are looked at: none, or one that mentions JSON or a form, in any case. */
  predicate WantedType(contentType: string) {
    || contentType == ""
    || HasWord(contentType, "json")
    || HasWord(contentType, "form-urlencoded")
    || HasWord(contentType, "multipart/form-data")
  }

  /** A body is read if there is one, a limit, no encoding but "identity", and a wanted content type. */
  predicate Eligible(body: Body, encoding: string, contentType: string, maxBytes: int) {
    && !body.NilBody? && maxBytes > 0
    && (Blank(encoding) || SameLetters(Trim(encoding), "identity"))
    && WantedType(contentType)
  }

  /** The tests as the program makes them. */
  lemma HeaderTests(encoding: string, contentType: string)
    ensures (Trim(encoding) == "" || EqualFold(Trim(encoding), "identity"))
       <==> (Blank(encoding) || SameLetters(Trim(encoding), "identity"))
    ensures var t := Lower(contentType);
      (t == "" || Contains(t, "json") || Contains(t, "form-urlencoded") || Contains(t, "multipart/form-data"))
        <==> WantedType(contentType)
  {
    LowerEmpty(contentType);
    EqualFoldIsSameLetters(Trim(encoding), "identity");
    ContainsIsHasWord(contentType, "json");
    ContainsIsHasWord(contentType, "form-urlencoded");
    ContainsIsHasWord(contentType, "multipart/form-data");
  }

  /**
   Which headers let a body through, for every content type and encoding: the type is empty or has, at some
   position and in any case, "json", "form-urlencoded" or "multipart/form-data"; the encoding is blank or
   spells "identity".
   */
  lemma EligibleExactly(source: Source, encoding: string, contentType: string, maxBytes: int)
    requires maxBytes > 0
    ensures var t := contentType;
      var plain := Spaces(encoding) || SameLetters(Trim(encoding), "identity");
      var json := exists i :: 0 <= i <= |t| && Reads(t[i..], "json");
      var form := exists i :: 0 <= i <= |t| && Reads(t[i..], "form-urlencoded");
      var parts := exists i :: 0 <= i <= |t| && Reads(t[i..], "multipart/form-data");
      Eligible(Original(source), encoding, t, maxBytes) <==> plain && (t == "" || json || form || parts)
  {
    BlankIsAllSpaces(encoding);
  }

  /** For ASCII content types: some slice spells one of the three words. */
  lemma WantedAscii(contentType: string, word: string)
    requires forall i :: 0 <= i < |contentType| ==> (contentType[i] as int) < 0x80
    ensures HasWord(contentType, word)
       <==> exists i :: 0 <= i <= |contentType| - |word| && SameLetters(contentType[i..][..|word|], word)
  {
    forall i | 0 <= i <= |contentType|
      ensures Reads(contentType[i..], word)
         <==> |word| <= |contentType| - i && SameLetters(contentType[i..][..|word|], word)
    {
      ReadsAscii(contentType[i..], word);
    }
  }

  /** io.ReadAll(io.LimitReader(original, limit)), with any buffer sizes. */
  method ReadAllLimited(original: Source, limit: int) returns (prefix: string, err: Option<int>, rest: Source)
    ensures prefix + Content(rest) == Content(original) && rest.end == original.end
    ensures limit > 0 ==> |prefix| <= limit
    ensures limit <= 0 ==> prefix == "" && err.None?
    ensures err.None? && |prefix| < limit ==> prefix == Content(original) && original.end.Eof?
    ensures err.Some? ==> prefix == Content(original) && original.end == Broken(err.value)
  {
    prefix, err, rest := "", None, original;
    var left := limit;
    while left > 0
      invariant left == limit - |prefix| && (limit > 0 ==> 0 <= left) && err.None?
      invariant limit <= 0 ==> prefix == ""
      invariant prefix + Content(rest) == Content(original) && rest.end == original.end
      decreases |Content(rest)| + |rest.chunks|
    {
      var room: nat :| room > 0;
      var n := Min(room, left);
      var g := Read(rest, n);
      ReadSplits(rest, n);
      assert prefix + (g.data + Content(g.rest)) == prefix + g.data + Content(g.rest);
      prefix, rest, left := prefix + g.data, g.rest, left - |g.data|;
      if g.end.Some? {
        if g.end.value.Broken? {
          err := Some(g.end.value.code);
        }
        return;
      }
    }
  }

  /**
   Transparency: over every chunking, read error and header combination the request can afterwards be
   read exactly as before, unless `maxBytes + 1` wraps around in a capture of a body that is not empty;
   and a captured body is the complete one.
   */
  method ReadBodyForCapture(body: Body, encoding: string, contentType: string, maxBytes: int)
    returns (captured: Option<string>, err: Option<int>, after: Body)
    requires Int64(maxBytes) && (body.NilBody? || body.Original?)
    ensures Readable(after) == Readable(body)
       <==> !(Eligible(body, encoding, contentType, maxBytes) && maxBytes == MAX_INT64 && Readable(body) != ("", Eof))
    ensures maxBytes < MAX_INT64 ==>
      && (captured.Some? <==> Eligible(body, encoding, contentType, maxBytes)
                              && |Readable(body).0| <= maxBytes && Readable(body).1.Eof?)
      && (captured.Some? ==> captured.value == Readable(body).0)
    ensures Eligible(body, encoding, contentType, maxBytes) && maxBytes == MAX_INT64 ==>
      captured == Some("") && Readable(after) == ("", Eof)
    ensures !Eligible(body, encoding, contentType, maxBytes) ==> captured.None? && err.None?
    ensures err.Some? ==> captured.None? && Readable(body).1 == Broken(err.value)
    ensures Eligible(body, encoding, contentType, maxBytes) && |Readable(body).0| <= maxBytes < MAX_INT64 ==>
      (Readable(body).1.Broken? <==> err.Some?)
  {
    captured, err, after := None, None, body;
    if body.NilBody? || maxBytes <= 0 {
      return;
    }
    HeaderTests(encoding, contentType);
    var contentEncoding := Trim(encoding);
    if contentEncoding != "" && !EqualFold(contentEncoding, "identity") {
      return;
    }
    var lower := Lower(contentType);
    if lower != "" && !Contains(lower, "json") && !Contains(lower, "form-urlencoded")
        && !Contains(lower, "multipart/form-data") {
      return;
    }
    var prefix, failure, rest := ReadAllLimited(body.source, Successor(maxBytes));
    if failure.Some? {
      after, err := Preserved(prefix, rest), failure;
      return;
    }
    if |prefix| > maxBytes {
      after := Preserved(prefix, rest);
      return;
    }
    after, captured := Buffered(prefix), Some(prefix);
  }

  /** An example: at the greatest limit a body of one byte is gone afterwards, and taken to be empty. */
  method WrapAroundLosesBody() returns (captured: Option<string>, after: Body)
    ensures var body := Original(Source(["x"], Eof, false));
      && Readable(body) == ("x", Eof) && Eligible(body, "", "", MAX_INT64)
      && captured == Some("") && Readable(after) == ("", Eof)
  {
    var source := Source(["x"], Eof, false);
    var body := Original(source);
    assert Flatten(["x"]) == "x" by {
      assert ["x"][1..] == [];
      assert "x" + "" == "x";
    }
    assert Trim("") == "" && WantedType("");
    var err;
    captured, err, after := ReadBodyForCapture(body, "", "", MAX_INT64);
  }
}
