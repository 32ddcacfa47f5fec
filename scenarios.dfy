/**
 * Client code that drives the component through whole sequences of steps; what
 * it asserts follows from the contracts of the component and the client alone.
 */
module Scenarios {
  import opened Wrappers
  import opened Types
  import opened TextTrim
  import opened Transcript
  import Gemini
  import opened ChatInterface

  /**
   * While a turn is in flight a second send is ignored, and a reset drops the
   * turn's placeholder: its later chunks and its finalisation change nothing.
   */
  method ResetDuringTurn(key: string, text: string, other: string, chunk: string)
    requires key != "" && !IsBlank(text)
  {
    var service := new Gemini.Service(Some(key));
    var chat := new Component(service, 0);
    var mounted := chat.Mount();
    chat.Type(text);
    CanSendIff(text, false);
    var accepted := chat.Send();
    assert accepted && chat.isLoading;
    chat.Type(other);
    var second := chat.Send();
    assert !second && chat.input == other;
    var reset := chat.Reset();
    assert chat.messages == [ResetGreeting(Stamp(2))];
    assert chat.turn.value.botId == Stamp(1);
    chat.ApplyChunk(chunk);
    assert chat.messages == [ResetGreeting(Stamp(2))];
    chat.Finalize();
    PatchAbsentIsIdentity([ResetGreeting(Stamp(2))], Stamp(1), EndStreaming);
    assert chat.messages == [ResetGreeting(Stamp(2))] && !chat.isLoading;
  }

  /**
   * A reply that breaks after the chunks `a`, (no text), "" and `b`: the callback
   * sees `a` and `b`, the placeholder keeps `a + b` with its streaming flag still
   * set, and the error message follows it.
   */
  method PartialReplyThenFailure(key: string, text: string, a: string, b: string)
    requires key != "" && !IsBlank(text) && a != "" && b != ""
  {
    var service := new Gemini.Service(Some(key));
    var chat := new Component(service, 100);
    chat.Type(text);
    CanSendIff(text, false);
    var chunks := [Some(a), None, Some(""), Some(b)];
    DeliveredOfPartialReply(a, b);
    var accepted, forwarded, outcome := chat.HandleSend(Gemini.Opened(chunks, false));
    assert accepted && forwarded == [a, b] && outcome == Fail(Gemini.StreamInterrupted);
    ConcatPair(a, b);
    assert chat.messages == [UserMessage(Stamp(100), Trim(text)),
                             Message(Stamp(101), Model, a + b, Some(true)),
                             ErrorMessage(Stamp(102))];
    assert !chat.isLoading && chat.input == "";
  }

  /**
   * The credential failure of `sendMessageStream` on its own: with no session held
   * and an empty key, `getChatSession` throws before any request, nothing is
   * streamed, and `handleSend` ends the turn with the error message.
   */
  method MissingKey(text: string, reply: Gemini.ReplyStream)
    requires !IsBlank(text)
  {
    var service := new Gemini.Service(Some(""));
    var chat := new Component(service, 7);
    chat.Type(text);
    CanSendIff(text, false);
    var accepted, forwarded, outcome := chat.HandleSend(reply);
    assert outcome == Fail(Gemini.MissingApiKey) && forwarded == [];
    assert chat.messages == [UserMessage(Stamp(7), Trim(text)), Message(Stamp(8), Model, "", Some(true)), ErrorMessage(Stamp(9))];
  }

  /** The session created at mount is the one every later turn talks to: sending creates no other. */
  method SessionReusedAcrossTurns(key: string, text: string, reply: Gemini.ReplyStream)
    requires key != "" && !IsBlank(text)
  {
    var service := new Gemini.Service(Some(key));
    var chat := new Component(service, 0);
    var mounted := chat.Mount();
    assert service.chatSession == Some(Gemini.NewChat(0, key));
    chat.Type(text);
    CanSendIff(text, false);
    var accepted, forwarded, outcome := chat.HandleSend(reply);
    assert accepted && service.chatSession == Some(Gemini.NewChat(0, key)) && service.sessionsCreated == 1;
  }

  /** The chunks `a`, (no text), "" and `b` deliver `a` and then `b`. */
  lemma DeliveredOfPartialReply(a: string, b: string)
    requires a != "" && b != ""
    ensures Gemini.Delivered([Some(a), None, Some(""), Some(b)]) == [a, b]
  {
    Gemini.DeliveredAppend([Some(a), None], [Some(""), Some(b)]);
    Gemini.DeliveredAppend([Some(a)], [None]);
    Gemini.DeliveredAppend([Some("")], [Some(b)]);
    assert [Some(a), None] + [Some(""), Some(b)] == [Some(a), None, Some(""), Some(b)];
    assert [Some(a)] + [None] == [Some(a), None];
    assert [Some("")] + [Some(b)] == [Some(""), Some(b)];
  }

  /** Accumulating two chunks gives the one followed by the other. */
  lemma ConcatPair(a: string, b: string)
    ensures Concat([a, b]) == a + b
  {
    ConcatSnoc([], a);
    assert [] + [a] == [a];
    ConcatSnoc([a], b);
    assert [a] + [b] == [a, b];
  }
}
