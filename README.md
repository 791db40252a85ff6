# AI therapist chat: conversation-history model

A Dafny model of the request handlers of a small web application in which a
visitor talks to an AI "therapist", either as a guest (the conversation lives in
the browser session) or as a registered account (the conversation is stored in a
user file next to a password hash). The handlers are modelled as transitions over
three pieces of state:

- the user database: a map from username to `Account(passwordHash, history)`;
- the session's guest history: an optional list of `{role, content}` messages;
- the session's logged-in username: optional.

Modules:

- `Wrappers`: the `Option` type used for session keys and form fields that may be absent.
- `Conversation`: messages, `SYSTEM_PROMPT`, the fallback reply of `get_response`, well-formed
  histories, one user/assistant exchange (`Exchange`) and the guest-into-account merge (`Merge`).
- `Handlers`: the state, and `Show`/`Post` (the two methods of `index`), `Register`, `Login` and
  `Logout` as functions from a state to the next state and a reply, each with contracts that state
  its outcomes, error paths included.
- `Trace`: any sequence of requests; lemmas that every reachable history starts with the system
  prompt and holds no other system message, that accounts are never removed and their histories
  only grow at the end, and a few properties that relate several requests.
- `App`: the class `ChatApp` whose fields are the three pieces of state and whose methods follow
  the handlers step by step; each method's new state and reply are proved equal to those of the
  matching function in `Handlers`, and each keeps the invariant `Valid()`.

The password hash, the password check and the completion provider are function
parameters (`hashOf`, `checkHash`, `api`); `api` returning `None` stands for a
failed provider call, for which `get_response` returns its fixed apology. In a
sequence of requests each chat message carries its own provider and each
registration its own hash function, so a provider may answer the same history
differently, or fail once and succeed later.

Three behaviours of app.py that the model keeps:

- A guest history is dropped after a merge only when it held more than the system prompt
  (app.py:109-111, 134-136); with one of length 1 it stays in the session.
- On the chat page, a POST by a guest with an empty or absent message still creates the guest
  history when it was missing (app.py:62-63 run before the message is read).
- A logged-in POST whose username is missing from the user file fails at the write-back
  (app.py:82) after the provider was asked; the model reports `Failed(UnknownUser)` and changes
  nothing.

## Model

| member | source | states |
|---|---|---|
| Conversation.GetResponse | app.py:42-52 | the provider's text, or the fixed apology when the call fails |
| Conversation.Exchange | app.py:72-76 | the history grows by exactly two entries at the end: the user message, then the assistant reply computed from the history that already holds the user message; well-formedness is kept |
| Conversation.Merge | app.py:108-110 | the account history is a prefix of the result; with guest turns, the result is the account history followed by the guest messages after index 0, in order; otherwise unchanged; well-formedness is kept |
| Handlers.Show | app.py:57-69 | GET renders the guest history (created as the prompt alone when missing), or the stored history of the logged-in user (the prompt alone when the user is unknown); nothing else changes |
| Handlers.Post | app.py:71-85 | a non-empty message appends one exchange to the active history only; other accounts and the other kind of history are untouched; an empty or absent message changes nothing beyond creating a missing guest history; an unknown logged-in user fails with nothing stored |
| Handlers.Register | app.py:92-116 | missing or empty username or password is rejected with no change; a taken username is rejected with no change; success exactly when both are filled and the name is new; the new account is the hash plus the merge of the guest history into the prompt alone; the guest history is dropped only when it had turns; the user is logged in |
| Handlers.Login | app.py:123-141 | success exactly when the user exists and the check accepts the password; an unknown user and a wrong password fail identically with no change; a known user posted without a password field is a server error with no change; success merges the guest turns into the stored history and drops the guest history only when there were turns; the user is logged in |
| Handlers.Logout | app.py:145-150 | only the session's username is removed; the user map and the guest history are unchanged |
| Trace.Step | app.py:54-150 | any single request keeps every history well formed and never removes an account, changes a password hash or rewrites a stored history except by appending |
| Trace.RunKeepsInvariant | app.py:54-150 | any sequence of requests keeps every guest and account history starting with the system prompt and free of other system messages |
| Trace.RunExtends | app.py:81-140 | over any sequence of requests, every account survives with its password hash, and its earlier history is a prefix of its later history |
| Trace.ReachableWellFormed | app.py:25-30 | from a first start (no user file, empty map), every history in every reachable state is well formed |
| Trace.RegisterAdoptsGuestTurns | app.py:104-111 | a successful registration gives the history `[SYSTEM_PROMPT] + guest[1:]` when the guest history is longer than 1, and `[SYSTEM_PROMPT]` otherwise |
| Trace.DuplicateRegistrationRejected | app.py:100-106 | registering a username a second time fails with `DuplicateUser`, changes nothing, and the first record keeps its password hash |
| Trace.RegisterLogoutLogin | app.py:105-148 | after registering, logging out and logging back in with the same password succeeds when the hash verifies it, and merges no guest turns a second time |
| Trace.FailedCompletionIsRecorded | app.py:50-52 | when the provider call fails, the guest history ends with the user message followed by the fixed apology as an assistant turn |
| App.ChatApp.constructor | app.py:27-30 | a first start: empty user map, no guest history, nobody logged in |
| App.ChatApp.Index | app.py:55-87 | updates the state and replies as `Handlers.Show` (GET) or `Handlers.Post` (POST); keeps the invariant; never changes the session username |
| App.ChatApp.Register | app.py:90-118 | updates the state and replies as `Handlers.Register`; keeps the invariant; stored histories only grow |
| App.ChatApp.Login | app.py:121-143 | updates the state and replies as `Handlers.Login`; keeps the invariant; stored histories only grow |
| App.ChatApp.Logout | app.py:146-150 | removes only the session username |

## Left out

- Reading and writing the user file and its JSON format (app.py:27-40): the store is an in-memory map; a missing or unparsable file yields the empty map, which is the model's starting state.
- Records in the user file without a `history` key (the `.get("history", [SYSTEM_PROMPT])` fallback at app.py:69) and empty records (falsy at app.py:129): every `Account` has a hash and a history.
- The completion call itself (app.py:42-52): the provider is the parameter `api`; what exception it raises, its logging and a `None` content in its answer are not modelled.
- Password hashing (app.py:105, 129): `hashOf` and `checkHash` are opaque functions; the salt is only reflected in each registration bringing its own `hashOf`, and in `Trace` one `checkHash` serves a whole sequence of requests.
- Handlers.Login, App.ChatApp.Login: a login POST without a password field for a known user makes the hash check raise; the model reports it as `Failed(MissingPassword)` with the state unchanged, and does not model the error page itself.
- Flask plumbing: routes, `flash` messages, redirect targets, template rendering, the secret key and environment loading (app.py:3-22, 85-87, 98, 115-118, 138, 143, 149-153). Replies only distinguish a rendered page, a redirect after success, and the error kind.
- Concurrency: two requests racing on the user file can lose updates; the model serves one request at a time.
- Aliasing: the guest list is appended in place and is the same object as the session's (app.py:64, 74-76); the model uses values, which gives the same final state because the list is written back at app.py:79.
- A "clear" route and a voice/JSON chat endpoint: app.py has neither, so they are not part of this model.
