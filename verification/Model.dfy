/** Captured messages and the finalisation of an extraction (model.go:10-86). */
module Model {
  import opened Common
  import opened Text
  import opened Utf8

  datatype UserMessage = UserMessage(index: nat, text: string, source: string)

  datatype Identity = Identity(
    userId: Option<int>,
    username: string,
    email: string,
    apiKeyId: Option<int>,
    apiKeyName: string,
    identitySource: string)
  {
    predicate Resolved() {
      userId.Some? && userId.value > 0
    }
  }

  const UNKNOWN_IDENTITY := Identity(None, "", "", None, "", "unknown")

  datatype Extracted = Extracted(
    protocol: string,
    model: string,
    messages: seq<UserMessage>,
    excludedRoles: map<string, nat>,
    status: string,
    truncated: bool,
    promptText: string,
    promptHash: string)

  datatype CaptureRecord = CaptureRecord(
    id: string,
    receivedAt: int,
    requestId: string,
    clientRequestId: string,
    identity: Identity,
    endpoint: string,
    protocol: string,
    model: string,
    messages: seq<UserMessage>,
    promptText: string,
    promptHash: string,
    messageCount: nat,
    parseStatus: string,
    truncated: bool,
    excludedRoles: map<string, nat>)

  /** The record both capture paths build from an extraction (proxy.go:107-123, websocket.go:107-123). */
  function NewRecord(id: string, receivedAt: int, requestId: string, clientRequestId: string, identity: Identity,
                     endpoint: string, x: Extracted): (r: CaptureRecord)
    ensures r.messageCount == |r.messages|
  {
    CaptureRecord(id, receivedAt, requestId, clientRequestId, identity, endpoint, x.protocol, x.model, x.messages,
                  x.promptText, x.promptHash, |x.messages|, x.status, x.truncated, x.excludedRoles)
  }

  /** The records differ at most in the model name and the role counts. */
  predicate Alike(x: CaptureRecord, y: CaptureRecord) {
    y == x.(model := y.model, excludedRoles := y.excludedRoles)
  }

  /** The texts worth storing, in order. */
  function Texts(messages: seq<UserMessage>): seq<string> {
    if messages == [] then []
    else
      var last := messages[|messages| - 1].text;
      Texts(messages[..|messages| - 1]) + (if Blank(last) then [] else [last])
  }

  /** strings.Join */
  function Join(parts: seq<string>, separator: string): string {
    if parts == [] then ""
    else if |parts| == 1 then parts[0]
    else Join(parts[..|parts| - 1], separator) + separator + parts[|parts| - 1]
  }

  function FullPrompt(messages: seq<UserMessage>): string {
    Join(Texts(messages), "\n\n")
  }

  function FinalStatus(status: string, count: nat): string {
    if status != "" then status else if count == 0 then "empty" else "parsed"
  }

  method Finalize(e: Extracted, maxPromptBytes: int, hash: string -> string) returns (r: Extracted)
    ensures r.promptText == Truncate(FullPrompt(e.messages), maxPromptBytes)
    ensures r.promptHash == hash(FullPrompt(e.messages))
    ensures r.truncated <==> e.truncated || 0 < maxPromptBytes < |FullPrompt(e.messages)|
    ensures r.status == FinalStatus(e.status, |e.messages|)
    ensures r.messages == e.messages && r.excludedRoles == e.excludedRoles
    ensures r.protocol == e.protocol && r.model == e.model
  {
    var parts: seq<string> := [];
    for i := 0 to |e.messages|
      invariant parts == Texts(e.messages[..i])
    {
      assert e.messages[..i + 1][..i] == e.messages[..i];
      if !Blank(e.messages[i].text) {
        parts := parts + [e.messages[i].text];
      }
    }
    assert e.messages[..|e.messages|] == e.messages;
    var fullPrompt := Join(parts, "\n\n");
    r := e.(promptHash := hash(fullPrompt));
    if maxPromptBytes > 0 && |fullPrompt| > maxPromptBytes {
      var cut := TruncateUTF8(fullPrompt, maxPromptBytes);
      r := r.(promptText := cut, truncated := true);
    } else {
      r := r.(promptText := fullPrompt);
    }
    if |e.messages| == 0 && r.status == "" {
      r := r.(status := "empty");
    }
    if |e.messages| > 0 && r.status == "" {
      r := r.(status := "parsed");
    }
  }

  // ------------------------------------------------------- the joined prompt

  function TotalLength(messages: seq<UserMessage>): nat {
    if messages == [] then 0
    else TotalLength(messages[..|messages| - 1]) + |messages[|messages| - 1].text|
  }

  predicate NoBlanks(messages: seq<UserMessage>) {
    forall i :: 0 <= i < |messages| ==> !Blank(messages[i].text)
  }

  lemma {:induction false} TextsKeepAll(messages: seq<UserMessage>)
    requires NoBlanks(messages)
    ensures |Texts(messages)| == |messages|
    ensures forall i :: 0 <= i < |messages| ==> Texts(messages)[i] == messages[i].text
  {
    if messages != [] { TextsKeepAll(messages[..|messages| - 1]); }
  }

  /** The joined prompt is as long as its texts together, plus two bytes per separator. */
  lemma {:induction false} FullPromptLength(messages: seq<UserMessage>)
    requires NoBlanks(messages) && messages != []
    ensures |FullPrompt(messages)| == TotalLength(messages) + 2 * (|messages| - 1)
  {
    TextsKeepAll(messages);
    var front := messages[..|messages| - 1];
    TextsKeepAll(front);
    if front == [] {
      assert Texts(messages) == [messages[0].text];
    } else {
      FullPromptLength(front);
      assert Texts(messages)[..|messages| - 1] == Texts(front);
    }
  }

  /** One more message: the prompt so far, a blank line, and its text. */
  lemma FullPromptNext(messages: seq<UserMessage>)
    requires NoBlanks(messages) && |messages| > 1
    ensures FullPrompt(messages)
         == FullPrompt(messages[..|messages| - 1]) + "\n\n" + messages[|messages| - 1].text
  {
    var front := messages[..|messages| - 1];
    TextsKeepAll(messages);
    TextsKeepAll(front);
    assert Texts(messages)[..|messages| - 1] == Texts(front);
  }

  /** Where the text of message `i` starts: after the texts before it and as many blank lines. */
  function StartOf(messages: seq<UserMessage>, i: nat): nat
    requires i <= |messages|
  {
    TotalLength(messages[..i]) + 2 * i
  }

  /** `full` has message `i` at its place, and a blank line after it unless it is the last. */
  predicate HasAt(full: string, messages: seq<UserMessage>, i: nat)
    requires i < |messages|
  {
    var at, t := StartOf(messages, i), messages[i].text;
    var end := at + |t|;
    && end <= |full| && full[at..end] == t
    && (if i + 1 < |messages| then end + 2 <= |full| && full[end..end + 2] == "\n\n" else end == |full|)
  }

  lemma KeptInFront(full: string, more: string, messages: seq<UserMessage>, i: nat)
    requires i + 1 < |messages| && "\n\n" <= more && HasAt(full, messages[..|messages| - 1], i)
    ensures HasAt(full + more, messages, i)
  {
    var front := messages[..|messages| - 1];
    assert front[..i] == messages[..i];
    var at, end := StartOf(messages, i), StartOf(messages, i) + |messages[i].text|;
    assert (full + more)[at..end] == full[at..end];
    if i + 2 < |messages| {
      assert (full + more)[end..end + 2] == full[end..end + 2];
    } else {
      assert (full + more)[end..end + 2] == more[..2];
    }
  }

  /**
   The stored prompt has every text at its place, in the order of the messages, with a blank line between one
   and the next and nothing else.
   */
  lemma {:induction false} PromptInOrder(messages: seq<UserMessage>, i: nat)
    requires NoBlanks(messages) && i < |messages|
    ensures var full, at, t := FullPrompt(messages), TotalLength(messages[..i]) + 2 * i, messages[i].text;
      && at + |t| <= |full| && full[at..at + |t|] == t
      && (i + 1 < |messages| ==> at + |t| + 2 <= |full| && full[at + |t|..at + |t| + 2] == "\n\n")
      && (i + 1 == |messages| ==> at + |t| == |full|)
  {
    PromptHas(messages, i);
  }

  lemma {:induction false} PromptHas(messages: seq<UserMessage>, i: nat)
    requires NoBlanks(messages) && i < |messages|
    ensures HasAt(FullPrompt(messages), messages, i)
  {
    var front, t := messages[..|messages| - 1], messages[|messages| - 1].text;
    if |messages| == 1 {
      TextsKeepAll(messages);
      assert messages[..0] == [] && Texts(messages) == [t];
    } else {
      FullPromptNext(messages);
      var full := FullPrompt(front);
      if i + 1 < |messages| {
        PromptHas(front, i);
        KeptInFront(full, "\n\n" + t, messages, i);
        assert full + ("\n\n" + t) == FullPrompt(messages);
      } else {
        FullPromptLength(front);
        LastHas(full, messages);
      }
    }
  }

  lemma LastHas(full: string, messages: seq<UserMessage>)
    requires |messages| > 1 && |full| + 2 == StartOf(messages, |messages| - 1)
    ensures HasAt(full + "\n\n" + messages[|messages| - 1].text, messages, |messages| - 1)
  {
    var t, at := messages[|messages| - 1].text, |full| + 2;
    assert (full + "\n\n" + t)[at..at + |t|] == t;
  }

  lemma {:induction false} JoinValid(parts: seq<string>, separator: string)
    requires Valid(separator) && forall i :: 0 <= i < |parts| ==> Valid(parts[i])
    ensures Valid(Join(parts, separator))
  {
    if |parts| > 1 {
      var front := parts[..|parts| - 1];
      JoinValid(front, separator);
      ValidConcat(Join(front, separator), separator);
      ValidConcat(Join(front, separator) + separator, parts[|parts| - 1]);
    }
  }

  lemma {:induction false} TextsValid(messages: seq<UserMessage>)
    requires forall i :: 0 <= i < |messages| ==> Valid(messages[i].text)
    ensures forall i :: 0 <= i < |Texts(messages)| ==> Valid(Texts(messages)[i])
  {
    if messages != [] { TextsValid(messages[..|messages| - 1]); }
  }

  /**
   The preview shown for a stored record (store.go:310-312), cut from the already
   truncated text, is the one that would be cut from the full prompt.
   */
  lemma PreviewOfStoredPrompt(messages: seq<UserMessage>, maxPromptBytes: int, preview: nat)
    requires forall i :: 0 <= i < |messages| ==> Valid(messages[i].text)
    requires 0 < preview
    ensures var full := FullPrompt(messages);
            Truncate(Truncate(full, maxPromptBytes), preview)
              == Truncate(full, if 0 < maxPromptBytes < preview then maxPromptBytes else preview)
  {
    TextsValid(messages);
    assert Valid("\n\n") by {
      assert ValidFrom("\n\n", 2) && ValidFrom("\n\n", 1);
    }
    JoinValid(Texts(messages), "\n\n");
    if 0 < maxPromptBytes {
      TruncateTwice(FullPrompt(messages), maxPromptBytes, preview);
    }
  }
}
