/**
 * The application as one object: the user database, the session's guest
 * history and the session's username are fields, and each route is a method
 * that updates them step by step. Each method's new state and reply are those
 * of the matching handler in module Handlers, so every property proved there
 * holds of the object.
 */
module App {
  import opened Wrappers
  import opened Conversation
  import opened Handlers

  class ChatApp {
    var users: map<string, Account>       // the user file, as loaded and saved
    var guestHistory: Option<History>     // session["guest_history"]
    var currentUser: Option<string>       // session["username"]

    function Snapshot(): State
      reads this
    {
      State(users, guestHistory, currentUser)
    }

    ghost predicate Valid()
      reads this
    {
      Invariant(Snapshot())
    }

    /** A first start: no user file yet, and a new session. */
    constructor ()
      ensures Valid()
      ensures Snapshot() == Initial
    {
      users := map[];
      guestHistory := None;
      currentUser := None;
    }

    /** The chat page: GET renders the active history, POST sends `message`. */
    method Index(isPost: bool, message: Option<string>, api: History -> Option<string>) returns (reply: Reply)
      requires Valid()
      modifies this
      ensures Valid() && Extends(old(Snapshot()), Snapshot())
      ensures currentUser == old(currentUser)
      ensures Transition(Snapshot(), reply) ==
        if isPost then Post(old(Snapshot()), message, api) else Show(old(Snapshot()))
    {
      var history: History;
      var isGuest := currentUser.None?;
      if isGuest {
        if guestHistory.None? {
          guestHistory := Some([SystemPrompt]);
        }
        history := guestHistory.value;
      } else {
        var name := currentUser.value;
        history := if name in users then users[name].history else [SystemPrompt];
      }

      if !isPost {
        return Page(history);
      }
      if message.Some? && message.value != "" {
        history := history + [Message(User, message.value)];
        var aiResponse := GetResponse(api, history);
        history := history + [Message(Assistant, aiResponse)];
        if isGuest {
          guestHistory := Some(history);
        } else {
          var name := currentUser.value;
          if name !in users {
            return Failed(UnknownUser);
          }
          users := users[name := users[name].(history := history)];
        }
      }
      return Redirect;
    }

    method Register(username: Option<string>, password: Option<string>, hashOf: string -> string)
      returns (reply: Reply)
      requires Valid()
      modifies this
      ensures Valid() && Extends(old(Snapshot()), Snapshot())
      ensures Transition(Snapshot(), reply) == Handlers.Register(old(Snapshot()), username, password, hashOf)
    {
      if username.None? || username.value == "" || password.None? || password.value == "" {
        return Failed(MissingCredentials);
      }
      var name := username.value;
      if name in users {
        return Failed(DuplicateUser);
      }
      var hashed := hashOf(password.value);
      users := users[name := Account(hashed, [SystemPrompt])];
      if guestHistory.Some? && |guestHistory.value| > 1 {
        users := users[name := users[name].(history := users[name].history + guestHistory.value[1..])];
        guestHistory := None;
      }
      currentUser := Some(name);
      return Redirect;
    }

    method Login(username: Option<string>, password: Option<string>, checkHash: (string, string) -> bool)
      returns (reply: Reply)
      requires Valid()
      modifies this
      ensures Valid() && Extends(old(Snapshot()), Snapshot())
      ensures Transition(Snapshot(), reply) == Handlers.Login(old(Snapshot()), username, password, checkHash)
    {
      if username.None? || username.value !in users {
        return Failed(InvalidCredentials);
      }
      var name := username.value;
      if password.None? {
        return Failed(MissingPassword);
      }
      if !checkHash(users[name].passwordHash, password.value) {
        return Failed(InvalidCredentials);
      }
      if guestHistory.Some? && |guestHistory.value| > 1 {
        users := users[name := users[name].(history := users[name].history + guestHistory.value[1..])];
        guestHistory := None;
      }
      currentUser := Some(name);
      return Redirect;
    }

    method Logout() returns (reply: Reply)
      requires Valid()
      modifies this
      ensures Valid()
      ensures users == old(users) && guestHistory == old(guestHistory) && currentUser.None?
      ensures Transition(Snapshot(), reply) == Handlers.Logout(old(Snapshot()))
    {
      currentUser := None;
      return Redirect;
    }
  }
}
