/**
 * The request handlers of the chat application as transitions over three
 * pieces of state: the user database (username to password hash and history),
 * the session's guest history, and the session's logged-in username.
 * Each handler yields the next state and what the browser gets back.
 */
module Handlers {
  import opened Wrappers
  import opened Conversation

  /** One record of the user database. */
  datatype Account = Account(passwordHash: string, history: History)

  datatype State = State(
    users: map<string, Account>,
    guestHistory: Option<History>,
    currentUser: Option<string>)

  /**
   * Failures reported back to the browser. The first three are a flash message and
   * a redirect; UnknownUser and MissingPassword are server errors raised part-way
   * through a handler, before anything is stored.
   */
  datatype Error = MissingCredentials | DuplicateUser | InvalidCredentials | UnknownUser | MissingPassword

  /** Page: the chat page showing a history; Redirect: a successful form post. */
  datatype Reply = Page(history: History) | Redirect | Failed(error: Error)

  datatype Transition = Transition(next: State, reply: Reply)

  /** A first start: the user file is missing, so the database is empty; a new session. */
  const Initial: State := State(map[], None, None)

  /** Every history held anywhere, guest or account, is well formed. */
  predicate Invariant(s: State)
  {
    (forall u :: u in s.users ==> WellFormed(s.users[u].history)) &&
    (s.guestHistory.Some? ==> WellFormed(s.guestHistory.value))
  }

  /**
   * `t` extends `s`: no account disappears, no password hash changes, and every
   * account history of `s` is a prefix of the same account's history in `t`.
   */
  predicate Extends(s: State, t: State)
  {
    forall u :: u in s.users ==>
      u in t.users &&
      t.users[u].passwordHash == s.users[u].passwordHash &&
      IsPrefix(s.users[u].history, t.users[u].history)
  }

  /** `request.form.get(...)` is truthy: present and not the empty string. */
  predicate Filled(field: Option<string>)
  {
    field.Some? && field.value != ""
  }

  /** The guest history, or a fresh one holding only the system prompt. */
  function GuestOrFresh(guest: Option<History>): History
  {
    if guest.Some? then guest.value else [SystemPrompt]
  }

  /**
   * The history the chat page works on: for a guest the session's history,
   * created when missing; for a logged-in user the stored history, or the
   * prompt alone when the user is not in the database.
   */
  function Resolve(s: State): (State, History)
  {
    if s.currentUser.None? then
      var h := GuestOrFresh(s.guestHistory);
      (s.(guestHistory := Some(h)), h)
    else
      var name := s.currentUser.value;
      (s, if name in s.users then s.users[name].history else [SystemPrompt])
  }

  /** `index` on GET: render the active history. */
  function Show(s: State): (r: Transition)
    ensures r.reply.Page?
    ensures r.next.users == s.users && r.next.currentUser == s.currentUser
    ensures s.currentUser.Some? ==> r.next == s
    ensures s.currentUser.Some? && s.currentUser.value in s.users ==>
      r.reply.history == s.users[s.currentUser.value].history
    ensures s.currentUser.Some? && s.currentUser.value !in s.users ==>
      r.reply.history == [SystemPrompt]
    ensures s.currentUser.None? ==> r.next.guestHistory == Some(r.reply.history)
    ensures s.currentUser.None? && s.guestHistory.Some? ==> r.next == s
    ensures s.currentUser.None? && s.guestHistory.None? ==> r.reply.history == [SystemPrompt]
    ensures Invariant(s) ==> Invariant(r.next) && WellFormed(r.reply.history)
  {
    var (next, h) := Resolve(s);
    Transition(next, Page(h))
  }

  /**
   * `index` on POST: a non-empty message adds a user turn and then the
   * assistant's reply to the active history, and only to it.
   */
  function Post(s: State, message: Option<string>, api: History -> Option<string>): (r: Transition)
    ensures r.next.currentUser == s.currentUser
    // no message: only the guest history is created when it was missing
    ensures !Filled(message) ==>
      r.reply == Redirect && r.next.users == s.users &&
      r.next.guestHistory == (if s.currentUser.None? then Some(GuestOrFresh(s.guestHistory)) else s.guestHistory)
    // a guest's message: the account records are untouched
    ensures Filled(message) && s.currentUser.None? ==>
      r.reply == Redirect && r.next.users == s.users &&
      r.next.guestHistory == Some(Exchange(GuestOrFresh(s.guestHistory), message.value, api))
    // a logged-in user's message: only that user's history changes, the guest history is untouched
    ensures Filled(message) && s.currentUser.Some? && s.currentUser.value in s.users ==>
      var name := s.currentUser.value;
      r.reply == Redirect && r.next.guestHistory == s.guestHistory &&
      r.next.users == s.users[name := s.users[name].(history := Exchange(s.users[name].history, message.value, api))]
    // a logged-in user missing from the database: the write-back fails, nothing is stored
    ensures Filled(message) && s.currentUser.Some? && s.currentUser.value !in s.users ==>
      r == Transition(s, Failed(UnknownUser))
    ensures Invariant(s) ==> Invariant(r.next)
    ensures Extends(s, r.next)
  {
    var (next, h) := Resolve(s);
    if !Filled(message) then
      Transition(next, Redirect)
    else
      var h' := Exchange(h, message.value, api);
      if s.currentUser.None? then
        Transition(next.(guestHistory := Some(h')), Redirect)
      else if s.currentUser.value !in s.users then
        Transition(s, Failed(UnknownUser))
      else
        var name := s.currentUser.value;
        Transition(next.(users := next.users[name := next.users[name].(history := h')]), Redirect)
  }

  /**
   * `register` on POST: both fields are required and the username must be new;
   * the new account starts with the prompt alone, then the guest turns are merged
   * into it (and the guest history dropped) when there are any.
   */
  function Register(s: State, username: Option<string>, password: Option<string>, hashOf: string -> string): (r: Transition)
    ensures !Filled(username) || !Filled(password) ==> r == Transition(s, Failed(MissingCredentials))
    ensures Filled(username) && Filled(password) && username.value in s.users ==>
      r == Transition(s, Failed(DuplicateUser))
    ensures r.reply == Redirect <==> Filled(username) && Filled(password) && username.value !in s.users
    ensures r.reply == Redirect ==>
      var name := username.value;
      r.next.users == s.users[name := Account(hashOf(password.value), Merge([SystemPrompt], s.guestHistory))] &&
      r.next.guestHistory == (if HasGuestTurns(s.guestHistory) then None else s.guestHistory) &&
      r.next.currentUser == Some(name)
    ensures Invariant(s) ==> Invariant(r.next)
    ensures Extends(s, r.next)
  {
    if !Filled(username) || !Filled(password) then
      Transition(s, Failed(MissingCredentials))
    else if username.value in s.users then
      Transition(s, Failed(DuplicateUser))
    else
      var name := username.value;
      var account := Account(hashOf(password.value), Merge([SystemPrompt], s.guestHistory));
      var guest := if HasGuestTurns(s.guestHistory) then None else s.guestHistory;
      Transition(State(s.users[name := account], guest, Some(name)), Redirect)
  }

  /** `users_data.get(username)` finds a record. */
  predicate Known(users: map<string, Account>, username: Option<string>)
  {
    username.Some? && username.value in users
  }

  /** The credentials check of `login`: a known user whose stored hash verifies. */
  predicate Authenticated(users: map<string, Account>, username: Option<string>, password: Option<string>,
                          checkHash: (string, string) -> bool)
  {
    Known(users, username) && password.Some? &&
    checkHash(users[username.value].passwordHash, password.value)
  }

  /**
   * `login` on POST: on good credentials the guest turns, if any, are appended
   * to the stored history and the guest history is dropped; on bad credentials,
   * unknown user or wrong password alike, nothing changes. A known user posted
   * without a password field makes the hash check raise: a server error, and
   * nothing changes either.
   */
  function Login(s: State, username: Option<string>, password: Option<string>,
                 checkHash: (string, string) -> bool): (r: Transition)
    ensures !Known(s.users, username) ==> r == Transition(s, Failed(InvalidCredentials))
    ensures Known(s.users, username) && password.None? ==> r == Transition(s, Failed(MissingPassword))
    ensures Known(s.users, username) && password.Some? ==>
      (!checkHash(s.users[username.value].passwordHash, password.value) ==>
         r == Transition(s, Failed(InvalidCredentials)))
    ensures r.reply == Redirect <==> Authenticated(s.users, username, password, checkHash)
    ensures r.reply == Redirect ==>
      var name := username.value;
      r.next.users == s.users[name := s.users[name].(history := Merge(s.users[name].history, s.guestHistory))] &&
      r.next.guestHistory == (if HasGuestTurns(s.guestHistory) then None else s.guestHistory) &&
      r.next.currentUser == Some(name)
    ensures Invariant(s) ==> Invariant(r.next)
    ensures Extends(s, r.next)
  {
    if !Known(s.users, username) then
      Transition(s, Failed(InvalidCredentials))
    else if password.None? then
      Transition(s, Failed(MissingPassword))
    else if !checkHash(s.users[username.value].passwordHash, password.value) then
      Transition(s, Failed(InvalidCredentials))
    else
      var name := username.value;
      var account := s.users[name].(history := Merge(s.users[name].history, s.guestHistory));
      var guest := if HasGuestTurns(s.guestHistory) then None else s.guestHistory;
      Transition(State(s.users[name := account], guest, Some(name)), Redirect)
  }

  /** `logout`: only the session's username goes. */
  function Logout(s: State): (r: Transition)
    ensures r.reply == Redirect && r.next.currentUser.None?
    ensures r.next.users == s.users && r.next.guestHistory == s.guestHistory
  {
    Transition(s.(currentUser := None), Redirect)
  }
}
