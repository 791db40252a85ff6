/**
 * Conversation histories: the messages exchanged with the assistant, the fixed
 * system prompt every history starts with, and the two ways a history grows
 * (one user/assistant exchange, and the merge of a guest history into an account).
 */
module Conversation {
  import opened Wrappers

  datatype Role = System | User | Assistant

  /** One `{role, content}` entry of a history. */
  datatype Message = Message(role: Role, content: string)

  type History = seq<Message>

  const SystemPromptText: string :=
    "You are a compassionate and empathetic AI therapist. Your goal is to listen, provide support, and help users explore their thoughts and feelings. Do not give medical advice."

  /** SYSTEM_PROMPT: the persona message at index 0 of every history. */
  const SystemPrompt: Message := Message(System, SystemPromptText)

  /** The reply recorded when the completion provider cannot be reached. */
  const FallbackReply: string :=
    "I'm sorry, I'm having trouble connecting right now. Please try again later."

  /**
   * A history as the application keeps it: the system prompt first, and no
   * other system message after it (the prompt is never removed nor duplicated).
   */
  predicate WellFormed(h: History)
  {
    |h| > 0 && h[0] == SystemPrompt &&
    forall i :: 1 <= i < |h| ==> h[i].role != System
  }

  predicate IsPrefix(a: History, b: History)
  {
    |a| <= |b| && b[..|a|] == a
  }

  /**
   * get_response: the provider's answer to the whole history, or the fixed
   * apology when the call fails (`api` yields None). The apology is still a reply.
   */
  function GetResponse(api: History -> Option<string>, h: History): (r: string)
    ensures api(h).Some? ==> r == api(h).value
    ensures api(h).None? ==> r == FallbackReply
  {
    match api(h)
    case Some(text) => text
    case None => FallbackReply
  }

  /**
   * One exchange: the user's message is appended, the provider is asked with
   * the history that already holds it, and its reply is appended after it.
   */
  function Exchange(h: History, userMessage: string, api: History -> Option<string>): (r: History)
    ensures |r| == |h| + 2 && IsPrefix(h, r)
    ensures r[|h|] == Message(User, userMessage)
    ensures r[|h| + 1] == Message(Assistant, GetResponse(api, r[..|h| + 1]))
    ensures WellFormed(h) ==> WellFormed(r)
  {
    var asked := h + [Message(User, userMessage)];
    assert asked[..|h|] == h;
    asked + [Message(Assistant, GetResponse(api, asked))]
  }

  /** A guest history takes part in a merge only when it holds more than the prompt. */
  predicate HasGuestTurns(guest: Option<History>)
  {
    guest.Some? && |guest.value| > 1
  }

  /**
   * The merge done at registration and login: every guest message after the
   * system prompt is appended, in order, to the account history; a missing guest
   * history or one holding only the prompt leaves the account history as it is.
   */
  function Merge(account: History, guest: Option<History>): (r: History)
    ensures IsPrefix(account, r)
    ensures !HasGuestTurns(guest) ==> r == account
    ensures HasGuestTurns(guest) ==>
      |r| == |account| + |guest.value| - 1 &&
      forall i :: |account| <= i < |r| ==> r[i] == guest.value[i - |account| + 1]
    ensures WellFormed(account) && (guest.Some? ==> WellFormed(guest.value)) ==> WellFormed(r)
  {
    if HasGuestTurns(guest) then
      var r := account + guest.value[1..];
      assert r[..|account|] == account;
      r
    else
      account
  }
}
