/**
 * Sequences of requests against one session and one user database, and what
 * holds of every state they reach: every history is well formed (it starts with
 * the system prompt), and account histories are only ever appended to.
 */
module Trace {
  import opened Wrappers
  import opened Conversation
  import opened Handlers

  /**
   * One request. The collaborators whose answers may differ from one call to the
   * next come with the request that calls them: the completion provider (None when
   * the call fails) with a chat message, and the salted password hash with a
   * registration. The password check, a function of the stored hash and the
   * password, is one `checkHash` for a whole run.
   */
  datatype Request =
    | ShowChat
    | PostMessage(message: Option<string>, api: History -> Option<string>)
    | RegisterForm(username: Option<string>, password: Option<string>, hashOf: string -> string)
    | LoginForm(username: Option<string>, password: Option<string>)
    | LogoutLink

  /** One request, dispatched to its handler. */
  function Step(s: State, checkHash: (string, string) -> bool, req: Request): (r: Transition)
    ensures Invariant(s) ==> Invariant(r.next)
    ensures Extends(s, r.next)
  {
    match req
    case ShowChat => Show(s)
    case PostMessage(message, api) => Post(s, message, api)
    case RegisterForm(username, password, hashOf) => Register(s, username, password, hashOf)
    case LoginForm(username, password) => Login(s, username, password, checkHash)
    case LogoutLink => Logout(s)
  }

  /** The state after serving `reqs` one after another. */
  function Run(s: State, checkHash: (string, string) -> bool, reqs: seq<Request>): State
    decreases |reqs|
  {
    if reqs == [] then s else Run(Step(s, checkHash, reqs[0]).next, checkHash, reqs[1..])
  }

  lemma ExtendsTransitive(a: State, b: State, c: State)
    requires Extends(a, b) && Extends(b, c)
    ensures Extends(a, c)
  {
  }

  /** No sequence of requests breaks the invariant. */
  lemma {:induction false} RunKeepsInvariant(s: State, checkHash: (string, string) -> bool, reqs: seq<Request>)
    requires Invariant(s)
    ensures Invariant(Run(s, checkHash, reqs))
    decreases |reqs|
  {
    if reqs != [] {
      RunKeepsInvariant(Step(s, checkHash, reqs[0]).next, checkHash, reqs[1..]);
    }
  }

  /** Accounts are never deleted, never re-keyed, and their histories only grow at the end. */
  lemma {:induction false} RunExtends(s: State, checkHash: (string, string) -> bool, reqs: seq<Request>)
    ensures Extends(s, Run(s, checkHash, reqs))
    decreases |reqs|
  {
    if reqs != [] {
      var t := Step(s, checkHash, reqs[0]).next;
      RunExtends(t, checkHash, reqs[1..]);
      ExtendsTransitive(s, t, Run(s, checkHash, reqs));
    }
  }

  /**
   * From a first start, every history the application ever holds starts with
   * the system prompt, and holds no other system message.
   */
  lemma ReachableWellFormed(checkHash: (string, string) -> bool, reqs: seq<Request>)
    ensures forall u :: u in Run(Initial, checkHash, reqs).users ==>
      WellFormed(Run(Initial, checkHash, reqs).users[u].history)
    ensures Run(Initial, checkHash, reqs).guestHistory.Some? ==>
      WellFormed(Run(Initial, checkHash, reqs).guestHistory.value)
  {
    RunKeepsInvariant(Initial, checkHash, reqs);
  }

  /**
   * A successful registration adopts the guest conversation: the account history is
   * the prompt followed by the guest turns, or the prompt alone when there are none.
   */
  lemma RegisterAdoptsGuestTurns(s: State, username: string, password: string, hashOf: string -> string)
    requires username != "" && password != "" && username !in s.users
    ensures var r := Register(s, Some(username), Some(password), hashOf);
      r.reply == Redirect && username in r.next.users &&
      r.next.users[username].history ==
        (if HasGuestTurns(s.guestHistory) then [SystemPrompt] + s.guestHistory.value[1..] else [SystemPrompt])
  {
  }

  /** Registering a taken username fails and leaves the first record as it was. */
  lemma DuplicateRegistrationRejected(s: State, username: string, password: string, password': string,
                                      hashOf: string -> string)
    requires username != "" && password != "" && password' != "" && username !in s.users
    ensures var first := Register(s, Some(username), Some(password), hashOf).next;
      var second := Register(first, Some(username), Some(password'), hashOf);
      second == Transition(first, Failed(DuplicateUser)) &&
      second.next.users[username].passwordHash == hashOf(password)
  {
  }

  /**
   * Logging out and back in right after registering succeeds when the hash
   * verifies its own password, and merges nothing a second time: the guest
   * turns were either adopted (and dropped) at registration or there were none.
   */
  lemma RegisterLogoutLogin(s: State, username: string, password: string,
                            hashOf: string -> string, checkHash: (string, string) -> bool)
    requires username != "" && password != "" && username !in s.users
    requires checkHash(hashOf(password), password)
    ensures var registered := Register(s, Some(username), Some(password), hashOf).next;
      var back := Login(Logout(registered).next, Some(username), Some(password), checkHash);
      back.reply == Redirect && back.next.currentUser == Some(username) &&
      back.next.users == registered.users && back.next.guestHistory == registered.guestHistory
  {
  }

  /**
   * A failed provider call still records an assistant turn: the fixed apology
   * is appended after the user's message, not dropped.
   */
  lemma FailedCompletionIsRecorded(s: State, message: string, api: History -> Option<string>)
    requires message != "" && s.currentUser.None?
    requires api(GuestOrFresh(s.guestHistory) + [Message(User, message)]).None?
    ensures var g := Post(s, Some(message), api).next.guestHistory;
      g.Some? && |g.value| >= 2 &&
      g.value[|g.value| - 2] == Message(User, message) &&
      g.value[|g.value| - 1] == Message(Assistant, FallbackReply)
  {
  }
}
