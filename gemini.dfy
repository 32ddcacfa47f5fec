/**
 * The model client (services/gemini.ts): the credential check, the lazily created
 * chat session held in a module-level variable, and the loop that forwards the
 * non-empty text chunks of a streamed reply to a callback.
 *
 * The hosted API is abstracted: a reply is the sequence of chunk texts the SDK
 * yields (each possibly absent) and whether the stream ends normally.
 */
module Gemini {
  import opened Wrappers

  /** The model the session is created for. */
  const ModelName := "gemini-2.5-flash"

  /** The system instruction the session is created with. */
  const SystemInstruction := "You are OmniChat, a helpful, witty, and highly intelligent AI assistant. You answer questions concisely but comprehensively. You use Markdown for formatting when appropriate."

  /** What the client can throw. */
  datatype Error =
    | MissingApiKey        // "API_KEY is not defined in environment variables"
    | RequestFailed        // the streaming call could not be opened
    | StreamInterrupted    // the stream ended abnormally while being read

  /** An API client, constructed from a credential. */
  datatype Client = Client(apiKey: string)

  /**
   * The configurations sessions are created with. The client has one: the
   * OmniChat persona, whose system instruction is `SystemInstruction`. A session
   * records the configuration rather than a copy of its text.
   */
  datatype Persona = OmniChatPersona

  /** The system instruction text a configuration sends. */
  function InstructionOf(p: Persona): string {
    match p
    case OmniChatPersona => SystemInstruction
  }

  /**
   * A chat session handle. `serial` tells sessions apart: the n-th session
   * created in the process has serial n, so a newly created one differs from
   * every earlier one.
   */
  datatype Chat = Chat(serial: nat, apiKey: string, model: string, persona: Persona)

  /** The session `ai.chats.create` makes: the fixed model and system instruction. */
  function NewChat(serial: nat, apiKey: string): (c: Chat)
    ensures c.serial == serial && c.apiKey == apiKey
  {
    Chat(serial, apiKey, ModelName, OmniChatPersona)
  }

  /** What the remote side does with one `sendMessageStream` request. */
  datatype ReplyStream =
    | OpenFails                                         // the call is rejected before any chunk
    | Opened(chunks: seq<Option<string>>, completes: bool) // chunk texts in receipt order; `completes` false: the stream then breaks

  /** JavaScript truthiness of an optional string: present and non-empty. */
  predicate Truthy(s: Option<string>) {
    s.Some? && s.value != ""
  }

  /** `getClient`: refuses an absent or empty key before any client is built. */
  function GetClient(apiKey: Option<string>): (r: Result<Client, Error>)
    ensures r.Success? <==> (apiKey.Some? && |apiKey.value| > 0)
    ensures r.Success? ==> r.value.apiKey == apiKey.value
    ensures r.Failure? ==> r.error == MissingApiKey
  {
    if !Truthy(apiKey) then Failure(MissingApiKey) else Success(Client(apiKey.value))
  }

  /**
   * The sequence of `onChunk` arguments for the chunk texts `chunks`: the present,
   * non-empty texts in receipt order.
   */
  function Delivered(chunks: seq<Option<string>>): (r: seq<string>)
    ensures |r| <= |chunks|
    ensures forall i :: 0 <= i < |r| ==> r[i] != "" && Some(r[i]) in chunks
  {
    if chunks == [] then []
    else
      var last := chunks[|chunks| - 1];
      var r := Delivered(chunks[..|chunks| - 1]) + (if Truthy(last) then [last.value] else []);
      assert forall c :: c in chunks[..|chunks| - 1] ==> c in chunks;
      r
  }

  /** Delivery distributes over the receipt order: the chunks of `a` are forwarded before those of `b`. */
  lemma {:induction false} DeliveredAppend(a: seq<Option<string>>, b: seq<Option<string>>)
    ensures Delivered(a + b) == Delivered(a) + Delivered(b)
  {
    if b == [] {
      assert a + b == a;
    } else {
      var b' := b[..|b| - 1];
      assert (a + b)[..|a + b| - 1] == a + b';
      DeliveredAppend(a, b');
    }
  }

  /** Chunks without text, or with empty text, cause no callback at all. */
  lemma {:induction false} DeliveredSkipsEmpty(chunks: seq<Option<string>>)
    requires forall i :: 0 <= i < |chunks| ==> !Truthy(chunks[i])
    ensures Delivered(chunks) == []
  {
    if chunks != [] {
      DeliveredSkipsEmpty(chunks[..|chunks| - 1]);
    }
  }

  /** When every chunk has text, each one is forwarded, unchanged and in order. */
  lemma {:induction false} DeliveredKeepsText(chunks: seq<Option<string>>)
    requires forall i :: 0 <= i < |chunks| ==> Truthy(chunks[i])
    ensures |Delivered(chunks)| == |chunks|
    ensures forall i :: 0 <= i < |chunks| ==> chunks[i].Some? && Delivered(chunks)[i] == chunks[i].value
  {
    if chunks != [] {
      DeliveredKeepsText(chunks[..|chunks| - 1]);
    }
  }

  /** Whether `getChatSession` returns a session: one is held, or one can be created. */
  predicate SessionAvailable(held: Option<Chat>, apiKey: Option<string>) {
    held.Some? || Truthy(apiKey)
  }

  /** The `onChunk` arguments of one `sendMessageStream` call. */
  function Forwarded(sessionAvailable: bool, reply: ReplyStream): seq<string> {
    if sessionAvailable && reply.Opened? then Delivered(reply.chunks) else []
  }

  /** How one `sendMessageStream` call ends: it returns, or it throws the first failure. */
  function StreamOutcome(sessionAvailable: bool, reply: ReplyStream): Outcome<Error> {
    if !sessionAvailable then Fail(MissingApiKey)
    else if reply.OpenFails? then Fail(RequestFailed)
    else if reply.completes then Pass
    else Fail(StreamInterrupted)
  }

  /**
   * The `for await` loop: walks the received chunks in order and records each
   * text it forwards to `onChunk`.
   */
  method ForwardChunks(chunks: seq<Option<string>>) returns (forwarded: seq<string>)
    ensures forwarded == Delivered(chunks)
  {
    forwarded := [];
    var i := 0;
    while i < |chunks|
      invariant 0 <= i <= |chunks|
      invariant forwarded == Delivered(chunks[..i])
    {
      var c := chunks[i];
      assert chunks[..i + 1][..i] == chunks[..i];
      if c.Some? && c.value != "" {
        forwarded := forwarded + [c.value];
      }
      i := i + 1;
    }
    assert chunks[..i] == chunks;
  }

  /**
   * The module state of services/gemini.ts: the credential taken from the
   * environment and the `chatSession` singleton.
   */
  class Service {
    /** `process.env.API_KEY`, fixed for the life of the process. */
    const apiKey: Option<string>
    /** The held session, `null` until one is created. */
    var chatSession: Option<Chat>
    /** How many sessions have been created so far. */
    var sessionsCreated: nat

    ghost predicate Valid()
      reads this
    {
      chatSession.Some? ==> chatSession.value.serial < sessionsCreated
    }

    /** The module as loaded: no session held. */
    constructor (apiKey: Option<string>)
      ensures Valid()
      ensures this.apiKey == apiKey && chatSession == None && sessionsCreated == 0
    {
      this.apiKey := apiKey;
      chatSession := None;
      sessionsCreated := 0;
    }

    /**
     * `initializeChat`: with a usable key, always replaces the held session by a
     * freshly created one and returns it; without, throws before touching it.
     */
    method InitializeChat() returns (r: Result<Chat, Error>)
      requires Valid()
      modifies this
      ensures Valid()
      ensures Truthy(apiKey) ==>
        && r == Success(NewChat(old(sessionsCreated), apiKey.value))
        && r.value.model == ModelName && InstructionOf(r.value.persona) == SystemInstruction
        && chatSession == Some(r.value)
        && sessionsCreated == old(sessionsCreated) + 1
      ensures Truthy(apiKey) && old(chatSession).Some? ==> r.value != old(chatSession).value
      ensures !Truthy(apiKey) ==>
        r == Failure(MissingApiKey) && unchanged(this)
    {
      var client := GetClient(apiKey);
      if client.Failure? {
        return Failure(client.error);
      }
      var chat := NewChat(sessionsCreated, client.value.apiKey);
      sessionsCreated := sessionsCreated + 1;
      chatSession := Some(chat);
      r := Success(chat);
    }

    /**
     * `getChatSession`: returns the held session unchanged if there is one, and
     * otherwise initialises one. Whenever it returns, a session is held.
     */
    method GetChatSession() returns (r: Result<Chat, Error>)
      requires Valid()
      modifies this
      ensures Valid()
      ensures r.Success? ==> chatSession == Some(r.value)
      ensures old(chatSession).Some? ==>
        r == Success(old(chatSession).value) && chatSession == old(chatSession) && sessionsCreated == old(sessionsCreated)
      ensures old(chatSession).None? && Truthy(apiKey) ==>
        && r == Success(NewChat(old(sessionsCreated), apiKey.value))
        && sessionsCreated == old(sessionsCreated) + 1
      ensures old(chatSession).None? && !Truthy(apiKey) ==>
        r == Failure(MissingApiKey) && chatSession == None && sessionsCreated == old(sessionsCreated)
    {
      if chatSession.None? {
        r := InitializeChat();
        return;
      }
      r := Success(chatSession.value);
    }

    /**
     * `sendMessageStream`: obtains the session (a failure there propagates),
     * sends `message`, and forwards the non-empty chunk texts of `reply` in order.
     * `forwarded` is the sequence of `onChunk` arguments; a failure while opening
     * or reading the stream is rethrown after the chunks already forwarded.
     */
    method SendMessageStream(message: string, reply: ReplyStream) returns (forwarded: seq<string>, outcome: Outcome<Error>)
      requires Valid()
      modifies this
      ensures Valid()
      ensures old(chatSession).None? && !Truthy(apiKey) ==>
        chatSession == None && sessionsCreated == old(sessionsCreated)
      ensures old(chatSession).Some? ==> chatSession == old(chatSession) && sessionsCreated == old(sessionsCreated)
      ensures old(chatSession).None? && Truthy(apiKey) ==>
        && chatSession == Some(NewChat(old(sessionsCreated), apiKey.value))
        && sessionsCreated == old(sessionsCreated) + 1
      ensures forwarded == Forwarded(SessionAvailable(old(chatSession), apiKey), reply)
      ensures outcome == StreamOutcome(SessionAvailable(old(chatSession), apiKey), reply)
    {
      var chat := GetChatSession();
      if chat.Failure? {
        return [], Fail(chat.error);
      }
      if reply.OpenFails? {
        return [], Fail(RequestFailed);
      }
      forwarded := ForwardChunks(reply.chunks);
      outcome := if reply.completes then Pass else Fail(StreamInterrupted);
    }
  }
}
