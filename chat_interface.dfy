/**
 * The conversation controller of components/ChatInterface.tsx: the transcript,
 * the input box and the busy flag, the mount-time greeting, `handleSend`
 * split into its sequential steps, and `resetChat`.
 *
 * `Date.now()` is modelled by the `clock` field: each read yields the current
 * value and advances it, so every clock-derived id is fresh.
 */
module ChatInterface {
  import opened Wrappers
  import opened Types
  import opened TextTrim
  import opened Transcript
  import Gemini

  /** Text of the greeting shown on first mount. */
  const GreetingText := "Hello! I'm OmniChat. I can answer questions, help you with code, or just chat. What's on your mind?"
  /** Text of the greeting shown after a reset. */
  const ResetText := "Fresh start! How can I help you now?"
  /** Text of the message appended when a turn fails. */
  const ErrorText := "I'm sorry, I encountered an error. Please try again."

  function Greeting(): Message { Message(InitId, Model, GreetingText, None) }
  function ResetGreeting(id: MessageId): Message { Message(id, Model, ResetText, None) }
  function UserMessage(id: MessageId, text: string): Message { Message(id, User, text, None) }
  function Placeholder(id: MessageId): Message { Message(id, Model, "", Some(true)) }
  function ErrorMessage(id: MessageId): Message { Message(id, Model, ErrorText, None) }

  /** The negation of the early return of `handleSend`: a non-blank input and no turn in flight. */
  predicate CanSend(input: string, isLoading: bool) {
    Trim(input) != "" && !isLoading
  }

  /** The `disabled` condition of the send button. */
  predicate SendDisabled(input: string, isLoading: bool) {
    !(|Trim(input)| > 0) || isLoading
  }

  /** Whether the typing indicator is rendered: while loading, below a user message. */
  predicate ShowsTypingIndicator(messages: seq<Message>, isLoading: bool) {
    isLoading && |messages| > 0 && messages[|messages| - 1].role == User
  }

  /** A send is accepted exactly when no turn is in flight and the input has a non-blank character. */
  lemma CanSendIff(input: string, isLoading: bool)
    ensures CanSend(input, isLoading) <==> !isLoading && !IsBlank(input)
  {
    TrimEmptyIffBlank(input);
  }

  /** The send button is disabled exactly when pressing it would be ignored. */
  lemma SendButtonMatchesGuard(input: string, isLoading: bool)
    ensures SendDisabled(input, isLoading) <==> !CanSend(input, isLoading)
    ensures SendDisabled(input, isLoading) <==> isLoading || IsBlank(input)
  {
    TrimEmptyIffBlank(input);
  }

  /**
   * The state `handleSend` keeps in its closure while a turn is in flight: the
   * trimmed prompt, the placeholder's id and the accumulator `fullResponse`.
   */
  datatype Turn = Turn(prompt: string, botId: MessageId, fullResponse: string)

  /** While the in-flight placeholder is in the transcript, it shows the accumulator and is streaming. */
  predicate PlaceholderInSync(ms: seq<Message>, t: Turn) {
    forall i :: 0 <= i < |ms| && ms[i].id == t.botId ==> ms[i] == Message(t.botId, Model, t.fullResponse, Some(true))
  }

  class Component {
    /** The model client module the component calls into. */
    const gemini: Gemini.Service
    /** The `messages` state. */
    var messages: seq<Message>
    /** The `input` state: the text area's content. */
    var input: string
    /** The `isLoading` state: a turn is in flight. */
    var isLoading: bool
    /** The `isInitialized` state of the mount effect. */
    var isInitialized: bool
    /** The next value `Date.now()` yields. */
    var clock: nat
    /** The in-flight `handleSend`, if any. */
    var turn: Option<Turn>

    ghost predicate Valid()
      reads this, gemini
    {
      && gemini.Valid()
      && DistinctIds(messages)
      && StampsBelow(messages, clock)
      && (isLoading <==> turn.Some?)
      && (turn.Some? ==>
            && turn.value.botId.Stamp? && turn.value.botId.n < clock
            && PlaceholderInSync(messages, turn.value))
      && (isLoading ==> |messages| > 0 && messages[|messages| - 1].role == Model)
    }

    /** The initial render: an empty transcript, an empty input, not loading. */
    constructor (gemini: Gemini.Service, now: nat)
      requires gemini.Valid()
      ensures Valid()
      ensures this.gemini == gemini && clock == now
      ensures messages == [] && input == "" && !isLoading && !isInitialized && turn == None
    {
      this.gemini := gemini;
      messages := [];
      input := "";
      isLoading := false;
      isInitialized := false;
      clock := now;
      turn := None;
    }

    /**
     * The mount effect: the first time, creates a session and shows the single
     * greeting. `initializeChat` throwing (no key) ends the effect before the
     * transcript is touched.
     */
    method Mount() returns (o: Outcome<Gemini.Error>)
      requires Valid()
      modifies this, gemini
      ensures Valid()
      ensures old(isInitialized) ==> o == Pass && unchanged(this) && unchanged(gemini)
      ensures !old(isInitialized) && Gemini.Truthy(gemini.apiKey) ==>
        && o == Pass && messages == [Greeting()] && isInitialized
        && input == old(input) && isLoading == old(isLoading) && turn == old(turn) && clock == old(clock)
        && gemini.chatSession == Some(Gemini.NewChat(old(gemini.sessionsCreated), gemini.apiKey.value))
        && gemini.sessionsCreated == old(gemini.sessionsCreated) + 1
      ensures !old(isInitialized) && !Gemini.Truthy(gemini.apiKey) ==>
        o == Fail(Gemini.MissingApiKey) && unchanged(this) && unchanged(gemini)
    {
      if isInitialized {
        return Pass;
      }
      var chat := gemini.InitializeChat();
      if chat.Failure? {
        return Fail(chat.error);
      }
      messages := [Greeting()];
      isInitialized := true;
      o := Pass;
    }

    /** The text area's `onChange`: the input becomes what was typed. */
    method Type(text: string)
      requires Valid()
      modifies this
      ensures Valid()
      ensures input == text
      ensures messages == old(messages) && isLoading == old(isLoading) && turn == old(turn)
      ensures clock == old(clock) && isInitialized == old(isInitialized)
    {
      input := text;
    }

    /**
     * The synchronous start of `handleSend`. Ignored (nothing changes, no stream
     * is started) on a blank input or while loading. Otherwise clears the input,
     * sets the busy flag and appends the user message with the trimmed text,
     * then the empty streaming placeholder; the rest of the transcript is kept.
     */
    method Send() returns (accepted: bool)
      requires Valid()
      modifies this
      ensures Valid()
      ensures accepted == CanSend(old(input), old(isLoading))
      ensures !accepted ==> unchanged(this)
      ensures accepted ==>
        && input == "" && isLoading && isInitialized == old(isInitialized)
        && messages == old(messages) + [UserMessage(Stamp(old(clock)), Trim(old(input))), Placeholder(Stamp(old(clock) + 1))]
        && turn == Some(Turn(Trim(old(input)), Stamp(old(clock) + 1), ""))
        && clock == old(clock) + 2
    {
      var prompt := Trim(input);
      if prompt == "" || isLoading {
        return false;
      }
      BegunTurnValid(messages, clock, prompt);
      input := "";
      var userId := Stamp(clock);
      clock := clock + 1;
      messages := messages + [UserMessage(userId, prompt)];
      isLoading := true;
      var botId := Stamp(clock);
      clock := clock + 1;
      messages := messages + [Placeholder(botId)];
      assert messages == old(messages) + [UserMessage(userId, prompt), Placeholder(botId)];
      turn := Some(Turn(prompt, botId, ""));
      accepted := true;
    }

    /**
     * The `onChunk` callback: adds the chunk to the accumulator and writes the
     * accumulator into the message carrying the placeholder's id. If that message
     * is gone (the transcript was reset meanwhile), the transcript is unchanged.
     */
    method ApplyChunk(chunk: string)
      requires Valid() && turn.Some?
      modifies this
      ensures Valid()
      ensures turn == Some(old(turn.value).(fullResponse := old(turn.value.fullResponse) + chunk))
      ensures messages == PatchById(old(messages), turn.value.botId, SetText(turn.value.fullResponse))
      ensures !HasId(old(messages), turn.value.botId) ==> messages == old(messages)
      ensures input == old(input) && isLoading && clock == old(clock) && isInitialized == old(isInitialized)
    {
      var t := turn.value;
      var full := t.fullResponse + chunk;
      PatchKeepsIds(messages, t.botId, SetText(full), clock);
      ChunkKeepsInSync(messages, t, chunk);
      if !HasId(messages, t.botId) {
        PatchAbsentIsIdentity(messages, t.botId, SetText(full));
      }
      turn := Some(t.(fullResponse := full));
      messages := PatchById(messages, t.botId, SetText(full));
    }

    /**
     * The callbacks of one stream, in order: one `ApplyChunk` per forwarded chunk.
     * The transcript is the fold of the chunks into the placeholder.
     */
    method ApplyChunks(chunks: seq<string>)
      requires Valid() && turn.Some?
      modifies this
      ensures Valid()
      ensures turn == Some(old(turn.value).(fullResponse := old(turn.value.fullResponse) + Concat(chunks)))
      ensures messages == FoldChunks(old(messages), turn.value.botId, old(turn.value.fullResponse), chunks)
      ensures input == old(input) && isLoading && clock == old(clock) && isInitialized == old(isInitialized)
    {
      var t := turn.value;
      ghost var ms0 := messages;
      var i := 0;
      assert t.fullResponse + Concat(chunks[..0]) == t.fullResponse;
      while i < |chunks|
        invariant 0 <= i <= |chunks|
        invariant Valid()
        invariant turn == Some(t.(fullResponse := t.fullResponse + Concat(chunks[..i])))
        invariant messages == FoldChunks(ms0, t.botId, t.fullResponse, chunks[..i])
        invariant input == old(input) && isLoading && clock == old(clock) && isInitialized == old(isInitialized)
      {
        FoldChunksStep(ms0, t.botId, t.fullResponse, chunks, i);
        ApplyChunk(chunks[i]);
        i := i + 1;
      }
      assert chunks[..i] == chunks;
    }

    /**
     * The success path: the placeholder's streaming flag is cleared, its text and
     * every other message are kept, and the busy flag is cleared.
     */
    method Finalize()
      requires Valid() && turn.Some?
      modifies this
      ensures Valid()
      ensures messages == PatchById(old(messages), old(turn.value.botId), EndStreaming)
      ensures turn == None && !isLoading
      ensures input == old(input) && clock == old(clock) && isInitialized == old(isInitialized)
    {
      var t := turn.value;
      messages := PatchById(messages, t.botId, EndStreaming);
      PatchKeepsIds(old(messages), t.botId, EndStreaming, clock);
      turn := None;
      isLoading := false;
    }

    /**
     * The failure path: the fixed error message is appended after everything,
     * the placeholder is left exactly as it was (partial text, and its streaming
     * flag still set), and the busy flag is cleared.
     */
    method ReportError()
      requires Valid() && turn.Some?
      modifies this
      ensures Valid()
      ensures messages == old(messages) + [ErrorMessage(Stamp(old(clock)))]
      ensures turn == None && !isLoading
      ensures input == old(input) && clock == old(clock) + 1 && isInitialized == old(isInitialized)
    {
      var errorId := Stamp(clock);
      clock := clock + 1;
      messages := messages + [ErrorMessage(errorId)];
      AppendFreshKeepsIds(old(messages), [ErrorMessage(errorId)], old(clock));
      turn := None;
      isLoading := false;
    }

    /**
     * `resetChat`: replaces the session and makes the transcript the single reset
     * greeting, whatever it held. Nothing else changes; a turn in flight goes on.
     * Without a key `initializeChat` throws and nothing changes.
     */
    method Reset() returns (o: Outcome<Gemini.Error>)
      requires Valid()
      modifies this, gemini
      ensures Valid()
      ensures Gemini.Truthy(gemini.apiKey) ==>
        && o == Pass && messages == [ResetGreeting(Stamp(old(clock)))] && clock == old(clock) + 1
        && input == old(input) && isLoading == old(isLoading) && turn == old(turn) && isInitialized == old(isInitialized)
        && gemini.chatSession == Some(Gemini.NewChat(old(gemini.sessionsCreated), gemini.apiKey.value))
        && gemini.sessionsCreated == old(gemini.sessionsCreated) + 1
      ensures !Gemini.Truthy(gemini.apiKey) ==>
        o == Fail(Gemini.MissingApiKey) && unchanged(this) && unchanged(gemini)
    {
      var chat := gemini.InitializeChat();
      if chat.Failure? {
        return Fail(chat.error);
      }
      var id := Stamp(clock);
      clock := clock + 1;
      messages := [ResetGreeting(id)];
      o := Pass;
    }

    /**
     * The streaming part of `handleSend`, run right after the two appends for one
     * reply of the remote side: one transcript patch per forwarded chunk. The
     * placeholder, which is last, ends showing the concatenation of the forwarded
     * chunks and still streaming; the turn stays in flight.
     */
    method StreamReply(reply: Gemini.ReplyStream) returns (forwarded: seq<string>, outcome: Outcome<Gemini.Error>)
      requires Valid() && turn.Some? && turn.value.fullResponse == ""
      requires |messages| > 0 && messages[|messages| - 1] == Placeholder(turn.value.botId)
      modifies this, gemini
      ensures Valid()
      ensures forwarded == Gemini.Forwarded(Gemini.SessionAvailable(old(gemini.chatSession), gemini.apiKey), reply)
      ensures outcome == Gemini.StreamOutcome(Gemini.SessionAvailable(old(gemini.chatSession), gemini.apiKey), reply)
      ensures turn == Some(old(turn.value).(fullResponse := Concat(forwarded)))
      ensures messages == old(messages)[..|old(messages)| - 1]
                          + [Message(old(turn.value.botId), Model, Concat(forwarded), Some(true))]
      ensures input == old(input) && isInitialized == old(isInitialized) && clock == old(clock)
      ensures old(gemini.chatSession).Some? ==>
        gemini.chatSession == old(gemini.chatSession) && gemini.sessionsCreated == old(gemini.sessionsCreated)
      ensures old(gemini.chatSession).None? && Gemini.Truthy(gemini.apiKey) ==>
        && gemini.chatSession == Some(Gemini.NewChat(old(gemini.sessionsCreated), gemini.apiKey.value))
        && gemini.sessionsCreated == old(gemini.sessionsCreated) + 1
      ensures old(gemini.chatSession).None? && !Gemini.Truthy(gemini.apiKey) ==>
        gemini.chatSession == None && gemini.sessionsCreated == old(gemini.sessionsCreated)
    {
      var t := turn.value;
      ghost var prev := messages[..|messages| - 1];
      assert messages == prev + [Placeholder(t.botId)];
      forwarded, outcome := gemini.SendMessageStream(t.prompt, reply);
      ApplyChunks(forwarded);
      StreamedTurn(prev, t.botId, forwarded);
      assert "" + Concat(forwarded) == Concat(forwarded);
    }

    /**
     * The awaited part of `handleSend` (the `try`/`catch`/`finally` block), run
     * right after the two appends for one reply of the remote side: one transcript
     * patch per forwarded chunk, then finalisation on success or the error message
     * on failure, the busy flag cleared either way. `forwarded` is the sequence of
     * chunks the callback received.
     */
    method RunTurn(reply: Gemini.ReplyStream) returns (forwarded: seq<string>, outcome: Outcome<Gemini.Error>)
      requires Valid() && turn.Some? && turn.value.fullResponse == ""
      requires |messages| > 0 && messages[|messages| - 1] == Placeholder(turn.value.botId)
      modifies this, gemini
      ensures Valid()
      ensures forwarded == Gemini.Forwarded(Gemini.SessionAvailable(old(gemini.chatSession), gemini.apiKey), reply)
      ensures outcome == Gemini.StreamOutcome(Gemini.SessionAvailable(old(gemini.chatSession), gemini.apiKey), reply)
      ensures messages == old(messages)[..|old(messages)| - 1]
                          + [Message(old(turn.value.botId), Model, Concat(forwarded), Some(!outcome.Pass?))]
                          + (if outcome.Pass? then [] else [ErrorMessage(Stamp(old(clock)))])
      ensures !isLoading && turn == None
      ensures input == old(input) && isInitialized == old(isInitialized)
      ensures clock == old(clock) + (if outcome.Pass? then 0 else 1)
      ensures old(gemini.chatSession).Some? ==>
        gemini.chatSession == old(gemini.chatSession) && gemini.sessionsCreated == old(gemini.sessionsCreated)
      ensures old(gemini.chatSession).None? && Gemini.Truthy(gemini.apiKey) ==>
        && gemini.chatSession == Some(Gemini.NewChat(old(gemini.sessionsCreated), gemini.apiKey.value))
        && gemini.sessionsCreated == old(gemini.sessionsCreated) + 1
      ensures old(gemini.chatSession).None? && !Gemini.Truthy(gemini.apiKey) ==>
        gemini.chatSession == None && gemini.sessionsCreated == old(gemini.sessionsCreated)
    {
      var botId := turn.value.botId;
      ghost var prev := messages[..|messages| - 1];
      forwarded, outcome := StreamReply(reply);
      if outcome.Pass? {
        Finalize();
        FinalizedTurn(prev, botId, Concat(forwarded));
      } else {
        ReportError();
      }
    }

    /**
     * The whole of `handleSend` for one reply of the remote side: the guard and
     * the two appends, then the awaited part.
     */
    method HandleSend(reply: Gemini.ReplyStream) returns (accepted: bool, forwarded: seq<string>, outcome: Outcome<Gemini.Error>)
      requires Valid()
      modifies this, gemini
      ensures Valid()
      ensures accepted == CanSend(old(input), old(isLoading))
      ensures !accepted ==> unchanged(this) && unchanged(gemini) && forwarded == [] && outcome == Pass
      ensures accepted ==>
        && forwarded == Gemini.Forwarded(Gemini.SessionAvailable(old(gemini.chatSession), gemini.apiKey), reply)
        && outcome == Gemini.StreamOutcome(Gemini.SessionAvailable(old(gemini.chatSession), gemini.apiKey), reply)
      ensures accepted ==>
        && input == "" && !isLoading && turn == None && isInitialized == old(isInitialized)
        && messages == old(messages)
                       + [UserMessage(Stamp(old(clock)), Trim(old(input))),
                          Message(Stamp(old(clock) + 1), Model, Concat(forwarded), Some(!outcome.Pass?))]
                       + (if outcome.Pass? then [] else [ErrorMessage(Stamp(old(clock) + 2))])
        && clock == old(clock) + (if outcome.Pass? then 2 else 3)
      ensures accepted && old(gemini.chatSession).Some? ==>
        gemini.chatSession == old(gemini.chatSession) && gemini.sessionsCreated == old(gemini.sessionsCreated)
      ensures accepted && old(gemini.chatSession).None? && Gemini.Truthy(gemini.apiKey) ==>
        && gemini.chatSession == Some(Gemini.NewChat(old(gemini.sessionsCreated), gemini.apiKey.value))
        && gemini.sessionsCreated == old(gemini.sessionsCreated) + 1
      ensures accepted && old(gemini.chatSession).None? && !Gemini.Truthy(gemini.apiKey) ==>
        gemini.chatSession == None && gemini.sessionsCreated == old(gemini.sessionsCreated)
    {
      accepted := Send();
      if !accepted {
        return false, [], Pass;
      }
      ghost var begun := messages;
      forwarded, outcome := RunTurn(reply);
      assert begun[..|begun| - 1] == old(messages) + [UserMessage(Stamp(old(clock)), Trim(old(input)))];
    }

    /** The typing indicator condition never holds: while loading, a model message is last. */
    lemma TypingIndicatorNeverShown()
      requires Valid()
      ensures !ShowsTypingIndicator(messages, isLoading)
    {
    }
  }

  /** Growing the accumulator and patching the placeholder with it keeps the two in sync. */
  lemma ChunkKeepsInSync(ms: seq<Message>, t: Turn, chunk: string)
    requires PlaceholderInSync(ms, t)
    ensures var r := PatchById(ms, t.botId, SetText(t.fullResponse + chunk));
            && PlaceholderInSync(r, t.(fullResponse := t.fullResponse + chunk))
            && (|ms| > 0 ==> r[|r| - 1].role == ms[|ms| - 1].role)
  {
    var r := PatchById(ms, t.botId, SetText(t.fullResponse + chunk));
    forall i | 0 <= i < |r| && r[i].id == t.botId
      ensures r[i] == Message(t.botId, Model, t.fullResponse + chunk, Some(true))
    {
      assert ms[i].id == t.botId;
    }
  }

  /**
   * Folding the chunks of a turn into its placeholder, which is the last message,
   * makes the placeholder show their concatenation and keeps everything before it.
   */
  lemma StreamedTurn(prev: seq<Message>, botId: MessageId, chunks: seq<string>)
    requires DistinctIds(prev + [Placeholder(botId)])
    ensures FoldChunks(prev + [Placeholder(botId)], botId, "", chunks)
         == prev + [Message(botId, Model, Concat(chunks), Some(true))]
  {
    var base := prev + [Placeholder(botId)];
    FoldChunksAt(base, |prev|, "", chunks);
    assert "" + Concat(chunks) == Concat(chunks);
    assert base[|prev| := base[|prev|].(text := Concat(chunks))]
        == prev + [Message(botId, Model, Concat(chunks), Some(true))];
  }

  /** Finalising a streamed placeholder that is last clears its flag and keeps everything else. */
  lemma FinalizedTurn(prev: seq<Message>, botId: MessageId, text: string)
    requires DistinctIds(prev + [Message(botId, Model, text, Some(true))])
    ensures PatchById(prev + [Message(botId, Model, text, Some(true))], botId, EndStreaming)
         == prev + [Message(botId, Model, text, Some(false))]
  {
    var ms := prev + [Message(botId, Model, text, Some(true))];
    PatchAt(ms, |prev|, EndStreaming);
    assert ms[|prev| := ApplyPatch(ms[|prev|], EndStreaming)]
        == prev + [Message(botId, Model, text, Some(false))];
  }

  /** The two appends of a turn keep the ids distinct and put the only message with the new id in sync with the new turn. */
  lemma BegunTurnValid(prev: seq<Message>, clock: nat, prompt: string)
    requires DistinctIds(prev) && StampsBelow(prev, clock)
    ensures var ms := prev + [UserMessage(Stamp(clock), prompt), Placeholder(Stamp(clock + 1))];
            && DistinctIds(ms) && StampsBelow(ms, clock + 2)
            && PlaceholderInSync(ms, Turn(prompt, Stamp(clock + 1), ""))
  {
    var added := [UserMessage(Stamp(clock), prompt), Placeholder(Stamp(clock + 1))];
    AppendFreshKeepsIds(prev, added, clock);
    var ms := prev + added;
    forall i | 0 <= i < |ms| && ms[i].id == Stamp(clock + 1)
      ensures ms[i] == Message(Stamp(clock + 1), Model, "", Some(true))
    {
      assert i >= |prev|;
    }
  }

  /** Appending messages with ids read from the clock after `clock` keeps ids distinct and below the new clock. */
  lemma AppendFreshKeepsIds(ms: seq<Message>, added: seq<Message>, clock: nat)
    requires DistinctIds(ms) && StampsBelow(ms, clock)
    requires forall j :: 0 <= j < |added| ==> added[j].id == Stamp(clock + j)
    ensures DistinctIds(ms + added) && StampsBelow(ms + added, clock + |added|)
  {
    var r := ms + added;
    forall i, j | 0 <= i < j < |r| ensures r[i].id != r[j].id {
      if j >= |ms| {
        assert r[j] == added[j - |ms|];
        if i >= |ms| { assert r[i] == added[i - |ms|]; }
      }
    }
  }
}
