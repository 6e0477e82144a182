/** Validation of a chat request, its cost estimate, and the payload its cache key is hashed
    from. */
module ChatRequest {
  import opened Sums
  import opened GoText

  datatype Message = Message(role: string, content: string)
  datatype Request = Request(model: string, messages: seq<Message>)
  datatype Validation = Ok | ModelRequired | MessagesEmpty

  function Validate(r: Request): (v: Validation)
  {
    if TrimSpace(r.model) == "" then ModelRequired
    else if r.messages == [] then MessagesEmpty
    else Ok
  }

  /** A request is refused exactly when its model is blank, which is said first, or it has no
      messages. */
  lemma ValidateIff(r: Request)
    ensures Validate(r) == ModelRequired <==> forall i :: 0 <= i < |r.model| ==> IsSpace(r.model[i])
    ensures Validate(r) == MessagesEmpty <==> Validate(r) != ModelRequired && |r.messages| == 0
  {
    BlankIff(r.model);
  }

  // ----- Cost estimate -------------------------------------------------------------------

  function ContentBytes(): Message -> int
  {
    (m: Message) => ByteLength(TrimSpace(m.content))
  }

  /** One unit of cost per started group of four content bytes, and at least one. */
  method EstimateRequestCost(messages: seq<Message>) returns (cost: int)
    ensures var bytes := Sum(messages, ContentBytes());
            && 1 <= cost && bytes <= 4 * cost
            && (1 < cost ==> 4 * (cost - 1) < bytes)
  {
    var totalBytes: int := 0;
    for i := 0 to |messages|
      invariant totalBytes == Sum(messages[..i], ContentBytes())
    {
      assert messages[..i + 1] == messages[..i] + [messages[i]];
      SumAppend(messages[..i], messages[i], ContentBytes());
      totalBytes := totalBytes + ByteLength(TrimSpace(messages[i].content));
    }
    assert messages[..|messages|] == messages;
    if totalBytes == 0 {
      return 1;
    }
    SumNonNegative(messages, ContentBytes());
    cost := totalBytes / 4;
    if totalBytes % 4 != 0 {
      cost := cost + 1;
    }
    if cost == 0 {
      return 1;
    }
  }

  // ----- Cache key payload ---------------------------------------------------------------

  function Line(m: Message): string
  {
    TrimSpace(m.role) + ":" + TrimSpace(m.content)
  }

  function Written(model: string, messages: seq<Message>): string
  {
    if messages == [] then TrimSpace(model) + "\n"
    else Written(model, messages[..|messages| - 1]) + Line(messages[|messages| - 1]) + "\n"
  }

  /** The text that buildCacheKey hashes. */
  function Payload(r: Request): string
  {
    TrimSpace(Written(r.model, r.messages))
  }

  method BuildPayload(r: Request) returns (payload: string)
    ensures payload == Payload(r)
  {
    var builder := TrimSpace(r.model);
    builder := builder + "\n";
    for i := 0 to |r.messages|
      invariant builder == Written(r.model, r.messages[..i])
    {
      var msg := r.messages[i];
      assert r.messages[..i + 1][..i] == r.messages[..i];
      builder := builder + (TrimSpace(msg.role) + ":" + TrimSpace(msg.content)) + "\n";
    }
    assert r.messages[..|r.messages|] == r.messages;
    payload := TrimSpace(builder);
  }

  /** The lines of the payload, newline-separated. */
  function Joined(model: string, messages: seq<Message>): string
  {
    if messages == [] then model
    else Joined(model, messages[..|messages| - 1]) + "\n" + messages[|messages| - 1].role + ":"
         + messages[|messages| - 1].content
  }

  function NormalMessages(messages: seq<Message>): (r: seq<Message>)
    ensures |r| == |messages|
  {
    if messages == [] then []
    else
      var m := messages[|messages| - 1];
      NormalMessages(messages[..|messages| - 1]) + [Message(TrimSpace(m.role), TrimSpace(m.content))]
  }

  /** The request up to surrounding white space. */
  function Normal(r: Request): Request
  {
    Request(TrimSpace(r.model), NormalMessages(r.messages))
  }

  lemma {:induction false} WrittenIsJoined(model: string, messages: seq<Message>)
    ensures Written(model, messages) == Joined(TrimSpace(model), NormalMessages(messages)) + "\n"
  {
    if messages != [] {
      var n := |messages| - 1;
      WrittenIsJoined(model, messages[..n]);
      var ns := NormalMessages(messages);
      assert ns[..n] == NormalMessages(messages[..n]);
      LineAppends(Joined(TrimSpace(model), ns[..n]), ns[n].role, ns[n].content);
    }
  }

  lemma LineAppends(before: string, role: string, content: string)
    ensures (before + "\n") + (role + ":" + content) + "\n" == (before + "\n" + role + ":" + content) + "\n"
  {
  }

  lemma {:induction false} JoinedTrimmed(model: string, messages: seq<Message>)
    requires model != "" && Trimmed(model) && forall m :: m in messages ==> Trimmed(m.content)
    ensures Joined(model, messages) != "" && Trimmed(Joined(model, messages))
    ensures Joined(model, messages)[0] == model[0]
  {
    if messages != [] {
      var n := |messages| - 1;
      JoinedTrimmed(model, messages[..n]);
      assert messages[n] in messages;
    }
  }

  lemma {:induction false} NormalIsTrimmed(messages: seq<Message>)
    ensures forall m :: m in NormalMessages(messages) ==> Trimmed(m.content)
  {
    if messages != [] {
      NormalIsTrimmed(messages[..|messages| - 1]);
    }
  }

  /** The payload of a validated request is its trimmed parts joined line by line; in particular
      it is never empty. */
  lemma ValidPayloadIsJoined(r: Request)
    requires Validate(r).Ok?
    ensures Payload(r) == Joined(Normal(r).model, Normal(r).messages) && Payload(r) != ""
  {
    var n := Normal(r);
    WrittenIsJoined(r.model, r.messages);
    NormalIsTrimmed(r.messages);
    JoinedTrimmed(n.model, n.messages);
    TrimLastSpace(Joined(n.model, n.messages), '\n');
  }

  // ----- Reading a payload back ----------------------------------------------------------

  function LastIndexOf(s: string, c: char): (r: Option<nat>)
    ensures r.Some? ==> r.value < |s| && s[r.value] == c && c !in s[r.value + 1..]
    ensures r.None? ==> c !in s
  {
    if s == [] then None
    else if s[|s| - 1] == c then Some(|s| - 1)
    else
      var r := LastIndexOf(s[..|s| - 1], c);
      assert s == s[..|s| - 1] + [s[|s| - 1]];
      assert r.Some? ==> s[r.value + 1..] == s[..|s| - 1][r.value + 1..] + [s[|s| - 1]];
      r
  }

  function FirstIndexOf(s: string, c: char): (r: Option<nat>)
    ensures r.Some? ==> r.value < |s| && s[r.value] == c && c !in s[..r.value]
    ensures r.None? ==> c !in s
  {
    if s == [] then None
    else if s[0] == c then Some(0)
    else match FirstIndexOf(s[1..], c)
      case None => None
      case Some(i) =>
        assert s[..i + 1] == [s[0]] + s[1..][..i];
        Some(i + 1)
  }

  /** Lines split at newlines, the first one the model, every other split at its first colon. */
  function Parse(text: string): Option<Request>
  {
    match LastIndexOf(text, '\n')
    case None => Some(Request(text, []))
    case Some(i) =>
      var line := text[i + 1..];
      match FirstIndexOf(line, ':')
      case None => None
      case Some(c) =>
        match Parse(text[..i])
        case None => None
        case Some(r) => Some(Request(r.model, r.messages + [Message(line[..c], line[c + 1..])]))
  }

  predicate CleanMessage(m: Message)
  {
    '\n' !in m.role && ':' !in m.role && '\n' !in m.content
  }

  /** No newline anywhere and no colon in a role. */
  ghost predicate Clean(r: Request)
  {
    '\n' !in r.model && forall m :: m in r.messages ==> CleanMessage(m)
  }

  lemma SplitLine(before: string, role: string, content: string)
    requires '\n' !in role && ':' !in role && '\n' !in content
    ensures var text := before + "\n" + role + ":" + content;
            && LastIndexOf(text, '\n') == Some(|before|)
            && text[..|before|] == before
            && text[|before| + 1..] == role + ":" + content
            && FirstIndexOf(role + ":" + content, ':') == Some(|role|)
  {
    var line := role + ":" + content;
    var text := before + "\n" + role + ":" + content;
    assert text == before + "\n" + line;
    assert text[|before|] == '\n' && text[|before| + 1..] == line && '\n' !in line;
    assert line[|role|] == ':';
  }

  lemma ParseLine(before: string, m: Message)
    requires CleanMessage(m) && Parse(before).Some?
    ensures var r := Parse(before).value;
            Parse(before + "\n" + m.role + ":" + m.content) == Some(Request(r.model, r.messages + [m]))
  {
    SplitLine(before, m.role, m.content);
    var line := m.role + ":" + m.content;
    assert line[..|m.role|] == m.role && line[|m.role| + 1..] == m.content;
  }

  lemma {:induction false} ParseJoined(model: string, messages: seq<Message>)
    requires '\n' !in model && forall m :: m in messages ==> CleanMessage(m)
    ensures Parse(Joined(model, messages)) == Some(Request(model, messages))
  {
    if messages != [] {
      var n := |messages| - 1;
      assert messages == messages[..n] + [messages[n]];
      ParseJoined(model, messages[..n]);
      ParseLine(Joined(model, messages[..n]), messages[n]);
    }
  }

  lemma {:induction false} ParsedIsClean(text: string)
    ensures Parse(text).Some? ==> Clean(Parse(text).value)
    decreases |text|
  {
    var i := LastIndexOf(text, '\n');
    if i.Some? {
      ParsedIsClean(text[..i.value]);
    }
  }

  /** The payload of a validated request reads back as the request, up to surrounding white
      space, exactly when the trimmed model, roles and contents contain no newline and the
      trimmed roles no colon. */
  lemma PayloadRoundTripIff(r: Request)
    requires Validate(r).Ok?
    ensures Parse(Payload(r)) == Some(Normal(r)) <==> Clean(Normal(r))
  {
    ValidPayloadIsJoined(r);
    ParsedIsClean(Payload(r));
    if Clean(Normal(r)) {
      ParseJoined(Normal(r).model, Normal(r).messages);
    }
  }

  /** Hence on such requests equal payloads mean equal requests, up to white space. */
  lemma PayloadInjective(r: Request, q: Request)
    requires Validate(r).Ok? && Validate(q).Ok? && Clean(Normal(r)) && Clean(Normal(q))
    ensures Payload(r) == Payload(q) <==> Normal(r) == Normal(q)
  {
    PayloadRoundTripIff(r);
    PayloadRoundTripIff(q);
    ValidPayloadIsJoined(r);
    ValidPayloadIsJoined(q);
  }

  lemma NormalOne(m: Message)
    requires Trimmed(m.role) && Trimmed(m.content)
    ensures NormalMessages([m]) == [m]
  {
    TrimmedIsFixed(m.role);
    TrimmedIsFixed(m.content);
    assert [m][..0] == [];
    assert NormalMessages([m]) == NormalMessages([]) + [m];
  }

  lemma NormalTwo(m: Message, k: Message)
    requires Trimmed(m.role) && Trimmed(m.content) && Trimmed(k.role) && Trimmed(k.content)
    ensures NormalMessages([m, k]) == [m, k]
  {
    NormalOne(m);
    TrimmedIsFixed(k.role);
    TrimmedIsFixed(k.content);
    assert [m, k][..1] == [m];
    assert NormalMessages([m, k]) == NormalMessages([m]) + [k];
  }

  lemma JoinedOneTwo(model: string, m: Message, k: Message)
    ensures Joined(model, [m]) == model + "\n" + m.role + ":" + m.content
    ensures Joined(model, [m, k]) == Joined(model, [m]) + "\n" + k.role + ":" + k.content
  {
    assert [m][..0] == [] && [m, k][..1] == [m];
  }

  /** m's content, followed by a line that looks like message k. */
  function Smuggle(m: Message, k: Message): Message
  {
    Message(m.role, m.content + "\n" + k.role + ":" + k.content)
  }

  lemma SmuggledText(model: string, m: Message, k: Message)
    ensures Joined(model, [Smuggle(m, k)]) == Joined(model, [m, k])
  {
    JoinedOneTwo(model, m, k);
    JoinedOneTwo(model, Smuggle(m, k), k);
  }

  /** Beyond them it fails: a content that contains a newline and then something like another
      message makes a request of one message share its payload with a request of two. */
  lemma NewlineCollides(model: string, m: Message, k: Message)
    requires model != "" && Trimmed(model)
    requires m.content != "" && Trimmed(m.role) && Trimmed(m.content) && Trimmed(k.role) && Trimmed(k.content)
    ensures var r, q := Request(model, [Smuggle(m, k)]), Request(model, [m, k]);
            && Validate(r).Ok? && Validate(q).Ok? && Normal(r) != Normal(q) && Payload(r) == Payload(q)
  {
    TrimmedIsFixed(model);
    assert Trimmed(Smuggle(m, k).content) && Smuggle(m, k).role == m.role;
    NormalOne(Smuggle(m, k));
    NormalTwo(m, k);
    SmuggledText(model, m, k);
    ValidPayloadIsJoined(Request(model, [Smuggle(m, k)]));
    ValidPayloadIsJoined(Request(model, [m, k]));
  }
}
