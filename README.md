# Login gate of the LO-Server-Proxy connection handler

The proxy sits between a Minecraft client and a backend server. For each accepted client
it runs `handle_connection`. That function relays bytes in both directions and watches the
client's login-phase packets to learn the player's username. When the client sends its
encryption response, the handler decides once whether the player may play:

- the decision is a table over the proxy mode (`whitelist` or `blacklist`) and roster
  membership;
- an allowed player's seat is handed off with `sit_out`;
- when the connection ends, `fill_in` is called for a player who was handed off, and the
  process-wide dictionaries `CONNECTIONS` and `CONNECTED_PLAYERS` are cleaned up.

The model covers this login gate and the registry bookkeeping. It also covers the
quote stripping that `get_proxy_mode` applies to the mode text returned by the
configuration service.

Modules, one file each:

- `Wrappers` (`wrappers.dfy`): the `Option` type for the username the packet decoder may yield.
- `Net` (`net.dfy`): bytes, chunks, client addresses and socket handles.
- `Text` (`text.dfy`): `str.lower()` for ASCII text, and Python's `in` on strings. The
  scanner `Contains` is proved equal to the substring predicate `IsSubstring`.
- `ParseConfig` (`parse_config.dfy`): the chained `.replace('"', "").replace("'", "")` of
  `get_proxy_mode`. It is proved equal to a one-pass quote filter and to be idempotent.
- `Access` (`access.dfy`): the roster scan as a loop, proved against the membership
  predicate `InRoster`, and the five-way decision table `Decide`.
- `Session` (`session.dfy`): the handler's four local flags (`running`, `username`,
  `completed_check`, `fill_in_on_leave`) as a pure state machine over `select` rounds.
  Traces of it give the buffers passed to `send` on each side. The lemmas prove that the flags only
  move forward, that the decision runs at most once, and what each row of the table does.
- `Registries` (`registry.dfy`): class `Registry`, holding `CONNECTIONS` and
  `CONNECTED_PLAYERS` as `map` fields updated in place.
- `Proxy` (`proxy.dfy`): class `ConnectionHandler`, holding the flags, the log of seat
  calls and the logs of the buffers passed to `send` on each side. Its methods follow the source's
  statements. Each is proved to take the `Session` step, and cleanup is stated in terms of
  the dictionaries' contents.

Inputs and outputs stand in for I/O:

- Each client chunk arrives as a `ClientChunk`: the bytes read, plus what the packet
  inspector (`lib/parse_packet`, which is not part of this model) reports about them.
  That is whether it is the encryption response, and the username its handshake decoder
  yields.
- The buffers passed to `server.send` and `client.send` are appended to `toServer` and `toClient`.
- `sit_out`, `time.sleep(3)` and `fill_in` are appended to `calls`.
- The mode text and the roster, which the source fetches over HTTP, are constructor
  parameters.

Behaviours of the code that a reader may not expect:

- Roster membership is not fully case-insensitive. Only the username is lower-cased
  (`player in username.lower()`), so a roster entry holding an upper-case letter never
  matches (`Text.UpperEntryNeverMatches`, `Access.UpperCaseEntryIgnored`). An empty roster
  entry matches every player (`Access.EmptyEntryMatchesAll`).
- Cleanup does not always purge the registries. The `fill_in` lookup
  `CONNECTED_PLAYERS[username]` is outside any `try`. If the username is missing there, the
  `KeyError` leaves the handler and the pops after it never run (`raised` in
  `Proxy.ConnectionHandler.Cleanup`). When no other connection touched the registry, this
  cannot happen (`Registered()`).
- The cleanup pop is nested: `CONNECTIONS.pop(CONNECTED_PLAYERS.pop(username))`. A missing
  username leaves both dictionaries unchanged. If the username is present but its address
  is no longer in `CONNECTIONS`, the player entry is still removed. The address is normally
  gone already, because the accept loop pops `caddr` right after starting the handler.
- The chunk that triggers a rejection is still forwarded to the server. The server half of
  that round is skipped.

## Model

| member | source | states |
|---|---|---|
| `Text.LowerChar` | src/ProxyServer/src/main.py:101 | the result is never an ASCII upper-case letter; non-upper-case characters are kept; each upper-case letter maps to its own lower-case letter (code point plus 32) |
| `Text.Lower` | src/ProxyServer/src/main.py:101 | `username.lower()` keeps the length and lower-cases each character |
| `Text.Contains` | src/ProxyServer/src/main.py:101 | Python's `player in name` as a left-to-right scan: the empty entry is always found, and a found entry is no longer than the name |
| `Text.ContainsIsSubstring` | src/ProxyServer/src/main.py:101 | the left-to-right scan for `player in name` is true exactly when the entry occurs at some position of the name |
| `Text.UpperEntryNeverMatches` | src/ProxyServer/src/main.py:100-101 | a roster entry holding an upper-case letter occurs in no lower-cased username |
| `Text.LowerPatternMatchesMixedCase` | src/ProxyServer/src/main.py:101 | entry `bob` occurs in `Bob_The_Builder` once the name is lower-cased |
| `ParseConfig.RemoveAll` | src/ProxyServer/src/lib/parse_config.py:66-67 | `replace(c, "")` leaves no `c`, never grows the text, keeps text without `c` unchanged and adds no character |
| `ParseConfig.StripQuotes` | src/ProxyServer/src/lib/parse_config.py:62-68 | the mode text afterwards holds neither `"` nor `'`, is no longer than the response, and a quote-free response comes back unchanged |
| `ParseConfig.RemoveAllAppend` | src/ProxyServer/src/lib/parse_config.py:66-67 | deleting a character from a concatenation deletes it from each part |
| `ParseConfig.StripQuotesIsUnquoted` | src/ProxyServer/src/lib/parse_config.py:66-67 | the two chained replaces equal one pass that drops exactly the quote characters and keeps all others in order |
| `ParseConfig.StripQuotesIdempotent` | src/ProxyServer/src/lib/parse_config.py:66-67 | stripping an already stripped mode text changes nothing |
| `ParseConfig.StripQuotedWord` | src/ProxyServer/src/lib/parse_config.py:66-67 | a quote-free word wrapped in one kind of quote strips back to the word |
| `ParseConfig.QuotedWhitelist` | src/ProxyServer/src/lib/parse_config.py:62-68 | the response `"whitelist"` yields the mode `whitelist` |
| `ParseConfig.QuotedBlacklist` | src/ProxyServer/src/lib/parse_config.py:62-68 | the response `'blacklist'` yields the mode `blacklist` |
| `Access.Decide` | src/ProxyServer/src/main.py:106-135 | allow exactly for (whitelist, on roster) and (blacklist, not on roster); the fallback exactly for a mode that is neither word; the four named rows for the two modes |
| `Access.RosterContains` | src/ProxyServer/src/main.py:98-104 | the scan with `break` sets `player_in_list` exactly when some roster entry occurs in the lower-cased username |
| `Access.NameCaseIgnored` | src/ProxyServer/src/main.py:98-104 | two usernames that differ only in the case of ASCII letters are on the roster together or not at all |
| `Access.UpperCaseEntryIgnored` | src/ProxyServer/src/main.py:100-104 | removing a roster entry that holds an upper-case letter never changes membership |
| `Access.EmptyEntryMatchesAll` | src/ProxyServer/src/main.py:100-104 | an empty roster entry puts every username on the roster |
| `Access.SteveOnRoster` | src/ProxyServer/src/main.py:98-104 | roster `["steve"]` admits `Steve` |
| `Access.SteveNotOnAlexRoster` | src/ProxyServer/src/main.py:98-104 | roster `["alex"]` does not admit `Steve` |
| `Session.ClientStep` | src/ProxyServer/src/main.py:86-147 | the flags after the client half of an iteration: an empty read clears `running`; a triggering chunk runs the decision table; otherwise a non-empty decoded username is captured; its properties are `Session.ClientStepProperties` and `Session.CheckOutcome` |
| `Session.ServerStep` | src/ProxyServer/src/main.py:149-152 | after a server read, `running` holds exactly when it held and the chunk is non-empty; the other flags are unchanged |
| `Session.RoundStep` | src/ProxyServer/src/main.py:82-185 | the flags after one iteration: the client half if the client was readable, then the server half only if `running` still holds; its properties are `Session.RoundStepProperties` |
| `Session.Run` | src/ProxyServer/src/main.py:81-185 | the flags after a sequence of iterations, in order; its properties are `Session.RunProperties`, `Session.CheckRunsOnce` and `Session.UsernameStable` |
| `Session.ToServer` | src/ProxyServer/src/main.py:147 | the buffers passed to `server.send` over a sequence of rounds: every client chunk as read, in order, whatever the inspection found; at most one per round |
| `Session.ToClient` | src/ProxyServer/src/main.py:185 | the buffers passed to `client.send` over a sequence of rounds: a server chunk only in a round where `running` still holds after the client half; at most one per round |
| `Session.ClientStepProperties` | src/ProxyServer/src/main.py:86-147 | a client chunk keeps the flags consistent and only moves them forward; the check completes exactly on a triggering chunk; the username changes exactly on a capture; a seat swap becomes pending exactly on an allowing check; the loop keeps running exactly when the chunk is non-empty and not rejected |
| `Session.CheckOutcome` | src/ProxyServer/src/main.py:91-137 | when the check runs, each of the five table rows has its effect on `running` and `fill_in_on_leave`, and `completed_check` becomes true |
| `Session.RoundStepProperties` | src/ProxyServer/src/main.py:82-185 | a whole loop iteration keeps the flags consistent and only moves them forward |
| `Session.RunProperties` | src/ProxyServer/src/main.py:81-185 | any sequence of rounds keeps the flags consistent; `running` never comes back, a set username never changes, `completed_check` and `fill_in_on_leave` are never reset |
| `Session.CheckRunsOnce` | src/ProxyServer/src/main.py:91-137 | over any run the decision executes at most once, and exactly once when `completed_check` went from false to true |
| `Session.UsernameStable` | src/ProxyServer/src/main.py:139-145 | a captured username stays the same for the rest of the connection |
| `Session.StoppedStaysStopped` | src/ProxyServer/src/main.py:149-152 | once `running` is false, a round neither restarts the loop nor reads from the server |
| `Session.RejectStopsRelay` | src/ProxyServer/src/main.py:106-149 | a round whose chunk is rejected stops the loop, reads nothing from the server, and still forwards that chunk |
| `Session.ToServerAppend` | src/ProxyServer/src/main.py:147 | the client buffers passed to `server.send` over two stretches of rounds are the two stretches' buffers in order |
| `Registries.Registry.constructor` | src/ProxyServer/src/main.py:42-43 | both dictionaries start empty |
| `Registries.Registry.LogConnection` | src/ProxyServer/src/main.py:46-48 | `CONNECTIONS` gains or replaces exactly the one key; every other entry and `CONNECTED_PLAYERS` are unchanged |
| `Registries.Registry.LogPlayerConnection` | src/ProxyServer/src/main.py:51-53 | `CONNECTED_PLAYERS` gains or replaces exactly the one key; every other entry and `CONNECTIONS` are unchanged |
| `Registries.Registry.DiscardConnection` | src/ProxyServer/src/main.py:232-235 | the address is absent from `CONNECTIONS` afterwards, whether or not it was there; nothing else changes |
| `Registries.Registry.ForgetPlayer` | src/ProxyServer/src/main.py:205-210 | the username is absent from `CONNECTED_PLAYERS`; the address it mapped to, if any, is absent from `CONNECTIONS`; a missing username changes nothing |
| `Proxy.ConnectionHandler.constructor` | src/ProxyServer/src/main.py:72-79 | the locals start as `running`, empty username, no check, no pending swap, with the mode stripped of quotes and nothing sent or called |
| `Proxy.ConnectionHandler.OnClientChunk` | src/ProxyServer/src/main.py:85-147 | the flags take the client step; the chunk is appended unchanged to the buffers passed to `server.send`; a check records `username -> caddr` and, when it allows, adds exactly one `sit_out(username, caddr)` and its wait; nothing else in the registries changes |
| `Proxy.ConnectionHandler.OnServerChunk` | src/ProxyServer/src/main.py:149-185 | the server chunk is appended unchanged to the buffers passed to `client.send`; an empty chunk stops the loop |
| `Proxy.ConnectionHandler.OnRound` | src/ProxyServer/src/main.py:82-185 | one iteration takes the round step, passes the client chunk, if any, to `server.send`, and the server chunk to `client.send` only if `running` still holds after the client half |
| `Proxy.ConnectionHandler.Serve` | src/ProxyServer/src/main.py:81-189 | the loop stops at the first round after which `running` is false; the flags, the buffers passed to `send` on each side and the player registry are those of the trace of the rounds processed; the flags only move forward; seat calls stay one `sit_out` exactly when a swap is pending |
| `Proxy.ConnectionHandler.Cleanup` | src/ProxyServer/src/main.py:191-210 | `fill_in` is called exactly when a swap is pending, with the recorded address; a missing username there raises and skips the pops; otherwise the username and its address leave the dictionaries; with an untouched registry the closed connection has made `sit_out`, its wait and `fill_in` once each or no seat call at all |
| `Proxy.ConnectionHandler.Handle` | src/ProxyServer/src/main.py:66-210 | the loop runs over a prefix of the rounds and stops at the first round that clears `running`, so nothing is relayed after a reject or a close; if it stopped, clean-up raises nothing, seat calls are paired, exactly the username leaves `CONNECTED_PLAYERS`, and exactly the client's address (after a decision) or the username's old address leaves `CONNECTIONS`; every other entry is unchanged; if it did not stop, the registries are as `Serve` leaves them |
| `Proxy.QuotedModeSelectsWhitelistRows` | src/ProxyServer/src/lib/parse_config.py:62-68 | the quoted service answer `"whitelist"` reaches the whitelist rows of the decision table, not the fallback |
| `Proxy.WhitelistedPlayerScenario` | src/ProxyServer/src/main.py:85-152 | `Steve` on roster `["steve"]` under `whitelist` is allowed; both chunks are passed to `server.send`; a server close ends the loop, and the closed connection makes `sit_out`, the wait and `fill_in` once each |
| `Proxy.UnlistedPlayerScenario` | src/ProxyServer/src/main.py:85-152 | `Steve` on roster `["alex"]` under `whitelist` is rejected; the encryption response is still forwarded, the pending server chunk is not read, and there is no seat call |

## Left out

- Sockets: `select.select`, `recv`, `send`, `close`, `connect`, `bind`, `listen` and `accept`. The rounds given to `Serve` stand for what `select` and `recv` return, and the byte logs stand for `send`. Closing the sockets at the end is left out.
- Threads and the accept loop's concurrency. One connection is modelled sequentially. Unsynchronised use of the shared dictionaries by several handlers is not captured, beyond the `raised` path of `Cleanup`.
- `time.sleep(3)` is recorded as a `Sleep(3)` call; no time passes.
- The catch-all `except Exception` around the loop body.
- Console logging.
- `APIHandler`, which is not part of this model. `sit_out` and `fill_in` are recorded as calls.
- The HTTP requests of `get_proxy_mode`, `get_player_list`, `convert_uuid_to_username`, `convert_username_to_uuid` and `join_all`. The mode text and the roster are parameters.
- `lib/parse_packet`, which is not part of this model. Its results come in with each `ClientChunk`.
- Configuration file and environment loading, the status request for the server MOTD at import, and the unused `ProxyModeEnum`.
- The commented-out MOTD rewrite and the locals `motd_sent` and `encryption_started`, which nothing reads.
- Partial sends. `socket.send` may write only part of a buffer, and the source ignores the count it returns, so the rest of a chunk can be lost; `toServer` and `toClient` record the buffers passed to `send`, not what the peers receive.
- The `True` that `log_connection` and `log_player_connection` return, which no caller uses.
- Text.Lower: lower-cases ASCII letters only. Python's `str.lower()` also maps other Unicode letters, some of them to more than one character. Minecraft usernames are ASCII.
- Proxy.ConnectionHandler.Serve: when the rounds run out while `running` still holds, the method returns. The source would keep waiting in `select`.
