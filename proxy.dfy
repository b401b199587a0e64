/**
 * `handle_connection`: one client connection's relay loop, login gate and cleanup, with
 * socket reads replaced by the rounds given to `Serve` and socket writes, seat calls and
 * the post-`sit_out` wait recorded in the fields `toServer`, `toClient` and `calls`.
 */
module Proxy {
  import opened Wrappers
  import opened Net
  import opened Access
  import opened ParseConfig
  import opened Session
  import opened Registries

  class ConnectionHandler {
    /** The shared dictionaries of the process. */
    const reg: Registry
    /** The client's address, `caddr`. */
    const caddr: Addr
    /** The mode and roster fetched when the handler starts. */
    const policy: Policy

    var running: bool
    var username: string
    var completedCheck: bool
    var fillInOnLeave: bool

    /** Every `sit_out`, wait and `fill_in`, in order. */
    var calls: seq<Call>
    /** Every `server.send`, in order. */
    var toServer: seq<Chunk>
    /** Every `client.send`, in order. */
    var toClient: seq<Chunk>

    function State(): Flags
      reads this
    {
      Flags(running, username, completedCheck, fillInOnLeave)
    }

    /** The flags are consistent and the seat calls made so far are the ones they imply. */
    ghost predicate Valid()
      reads this
    {
      Consistent(State()) && calls == SeatCalls(State(), caddr)
    }

    /** Once the decision has run, the players dictionary maps the username to this client's address. */
    ghost predicate Registered()
      reads this, reg
    {
      completedCheck ==> username in reg.connectedPlayers && reg.connectedPlayers[username] == caddr
    }

    /**
     * The start of `handle_connection`: the locals take their initial values and the mode
     * text from the configuration service is stripped of quotes, as `get_proxy_mode` does.
     */
    constructor (reg: Registry, caddr: Addr, modeText: string, roster: seq<string>)
      ensures this.reg == reg && this.caddr == caddr
      ensures policy == Policy(StripQuotes(modeText), roster)
      ensures State() == Initial && Valid()
      ensures calls == [] && toServer == [] && toClient == []
    {
      this.reg := reg;
      this.caddr := caddr;
      this.policy := Policy(StripQuotes(modeText), roster);
      running := true;
      username := "";
      completedCheck := false;
      fillInOnLeave := false;
      calls := [];
      toServer := [];
      toClient := [];
    }

    /**
     * The client half of one loop iteration: stop on an empty read, run the access decision
     * on the first encryption response once a username is known, otherwise try to capture a
     * username, and in every case forward the chunk to the server unchanged.
     */
    method OnClientChunk(c: ClientChunk)
      requires Valid()
      modifies this, reg
      ensures Valid()
      ensures State() == ClientStep(old(State()), c, policy)
      ensures toServer == old(toServer) + [c.data] && toClient == old(toClient)
      ensures calls == old(calls) +
        if TriggersCheck(old(State()), c) && Verdict(old(State()), policy).Allows()
        then [SitOut(old(username), caddr), Sleep(SitOutDelay)] else []
      ensures reg.connections == old(reg.connections)
      ensures reg.connectedPlayers ==
        if TriggersCheck(old(State()), c) then old(reg.connectedPlayers)[old(username) := caddr]
        else old(reg.connectedPlayers)
      ensures old(Registered()) ==> Registered()
    {
      ClientStepProperties(State(), c, policy);
      if |c.data| == 0 {
        running := false;
      }
      if !completedCheck {
        if c.isEncryptionResponse {
          if username != "" {
            reg.LogPlayerConnection(username, caddr);
            var inList := RosterContains(policy.roster, username);
            var verdict := Decide(policy.mode, inList);
            if verdict.Allows() {
              calls := calls + [SitOut(username, reg.connectedPlayers[username]), Sleep(SitOutDelay)];
              fillInOnLeave := true;
            } else {
              running := false;
            }
            completedCheck := true;
          }
        } else if username == "" {
          if c.parsedUsername.Some? && c.parsedUsername.value != "" {
            username := c.parsedUsername.value;
          }
        }
      }
      toServer := toServer + [c.data];
    }

    /** The server half of one loop iteration, reached only while `running` holds. */
    method OnServerChunk(data: Chunk)
      requires Valid() && running
      modifies this
      ensures Valid()
      ensures State() == ServerStep(old(State()), data)
      ensures toClient == old(toClient) + [data] && toServer == old(toServer) && calls == old(calls)
    {
      if |data| == 0 {
        running := false;
      }
      toClient := toClient + [data];
    }

    /** One iteration of the `while running` loop: the client half, then the server half. */
    method OnRound(r: Round)
      requires Valid()
      modifies this, reg
      ensures Valid()
      ensures State() == RoundStep(old(State()), r, policy)
      ensures Follows(old(State()), State())
      ensures toServer == old(toServer) + (if r.client.Some? then [r.client.value.data] else [])
      ensures toClient == old(toClient) + (if ReadsServer(old(State()), r, policy) then [r.server.value] else [])
      ensures reg.connections == old(reg.connections)
      ensures reg.connectedPlayers ==
        if old(completedCheck) == completedCheck then old(reg.connectedPlayers)
        else old(reg.connectedPlayers)[username := caddr]
      ensures old(Registered()) ==> Registered()
    {
      RoundStepProperties(State(), r, policy);
      if r.client.Some? {
        ClientStepProperties(State(), r.client.value, policy);
        OnClientChunk(r.client.value);
      }
      if r.server.Some? && running {
        OnServerChunk(r.server.value);
      }
    }

    /**
     * The `while running` loop over the given `select` rounds. It stops at the first round
     * after which `running` is false, or when the rounds run out (the real loop would then
     * wait in `select`).
     */
    method Serve(rounds: seq<Round>) returns (n: nat)
      requires Valid()
      modifies this, reg
      ensures Valid()
      ensures n <= |rounds|
      ensures State() == Run(old(State()), rounds[..n], policy)
      ensures Follows(old(State()), State())
      ensures n < |rounds| ==> !running
      ensures forall j :: 0 <= j < n ==> Run(old(State()), rounds[..j], policy).running
      ensures toServer == old(toServer) + ToServer(rounds[..n])
      ensures toClient == old(toClient) + ToClient(old(State()), rounds[..n], policy)
      ensures reg.connections == old(reg.connections)
      ensures reg.connectedPlayers ==
        if old(completedCheck) == completedCheck then old(reg.connectedPlayers)
        else old(reg.connectedPlayers)[username := caddr]
      ensures old(Registered()) ==> Registered()
    {
      ghost var f0 := State();
      ghost var server0, client0, players0 := toServer, toClient, reg.connectedPlayers;
      var i := 0;
      while running && i < |rounds|
        invariant 0 <= i <= |rounds|
        invariant Valid()
        invariant State() == Run(f0, rounds[..i], policy)
        invariant Follows(f0, State())
        invariant forall j :: 0 <= j < i ==> Run(f0, rounds[..j], policy).running
        invariant toServer == server0 + ToServer(rounds[..i])
        invariant toClient == client0 + ToClient(f0, rounds[..i], policy)
        invariant reg.connections == old(reg.connections)
        invariant reg.connectedPlayers ==
          if f0.completedCheck == completedCheck then players0 else players0[username := caddr]
        invariant old(Registered()) ==> Registered()
      {
        var r := rounds[i];
        assert rounds[..i + 1][..i] == rounds[..i] && rounds[..i + 1][i] == r;
        ghost var before := State();
        OnRound(r);
        FollowsTransitive(f0, before, State());
        i := i + 1;
      }
      n := i;
    }

    /**
     * The code after the loop. Closing the sockets is left out. When a seat swap is
     * pending, `fill_in` is called with the address recorded for the username; that lookup
     * is not guarded, so a missing username raises out of the handler (`raised`) and the
     * registry clean-up after it never runs. Otherwise the username and its address are
     * removed from the dictionaries, ignoring missing keys.
     */
    method Cleanup() returns (raised: bool)
      requires Valid()
      modifies this, reg
      ensures State() == old(State()) && toServer == old(toServer) && toClient == old(toClient)
      ensures raised <==> fillInOnLeave && username !in old(reg.connectedPlayers)
      ensures raised ==>
        calls == old(calls) && reg.connections == old(reg.connections)
        && reg.connectedPlayers == old(reg.connectedPlayers)
      ensures !raised ==>
        calls == old(calls) + if fillInOnLeave then [FillIn(username, old(reg.connectedPlayers)[username])] else []
      ensures !raised ==> reg.connectedPlayers == old(reg.connectedPlayers) - {username}
      ensures !raised ==>
        reg.connections ==
          if username in old(reg.connectedPlayers) then old(reg.connections) - {old(reg.connectedPlayers)[username]}
          else old(reg.connections)
      ensures old(Registered()) ==> !raised && calls == ClosedCalls(State(), caddr)
      ensures old(Registered()) && completedCheck ==> caddr !in reg.connections
    {
      if fillInOnLeave {
        if username !in reg.connectedPlayers {
          return true;
        }
        calls := calls + [FillIn(username, reg.connectedPlayers[username])];
      }
      reg.ForgetPlayer(username);
      return false;
    }

    /**
     * The whole of `handle_connection` over the given rounds: the loop, then, if it has
     * stopped, the clean-up. The result `closed` says whether the loop stopped.
     */
    method Handle(rounds: seq<Round>) returns (closed: bool, raised: bool)
      requires Valid() && Registered()
      modifies this, reg
      ensures closed <==> !running
      ensures exists n ::
        && 0 <= n <= |rounds|
        && State() == Run(old(State()), rounds[..n], policy)
        && toServer == old(toServer) + ToServer(rounds[..n])
        && toClient == old(toClient) + ToClient(old(State()), rounds[..n], policy)
        && (n < |rounds| ==> closed)
        && (forall j :: 0 <= j < n ==> Run(old(State()), rounds[..j], policy).running)
      ensures !raised
      ensures closed ==> calls == ClosedCalls(State(), caddr) && username !in reg.connectedPlayers
      ensures closed && completedCheck ==> caddr !in reg.connections
      ensures closed ==> reg.connectedPlayers == old(reg.connectedPlayers) - {username}
      ensures closed ==>
        reg.connections ==
          if completedCheck then old(reg.connections) - {caddr}
          else if username in old(reg.connectedPlayers) then old(reg.connections) - {old(reg.connectedPlayers)[username]}
          else old(reg.connections)
      ensures !closed ==> Valid() && Registered()
      ensures !closed ==> reg.connections == old(reg.connections)
      ensures !closed ==>
        reg.connectedPlayers ==
          if old(completedCheck) == completedCheck then old(reg.connectedPlayers)
          else old(reg.connectedPlayers)[username := caddr]
    {
      var n := Serve(rounds);
      closed := !running;
      raised := false;
      if closed {
        assert Registered();
        raised := Cleanup();
      }
    }
  }

  /**
   * The configuration service answers `/mode` with the JSON string `"whitelist"`; once its
   * quotes are stripped it selects the whitelist rows of the table, never the fallback.
   */
  lemma QuotedModeSelectsWhitelistRows(inRoster: bool)
    ensures Decide(StripQuotes("\"whitelist\""), inRoster) == if inRoster then Whitelisted else NotWhitelisted
  {
    QuotedWhitelist();
  }

  /**
   * A whitelisted player `Steve` logs in under the mode `whitelist` (what the service's
   * quoted answer strips to) and is allowed; the server then closes. Both chunks are passed
   * to `server.send` unchanged, the loop stops, and the closed connection has made one `sit_out`, its wait, and one `fill_in`.
   */
  lemma WhitelistedPlayerScenario(addr: Addr, login: Chunk, response: Chunk)
    requires |login| > 0 && |response| > 0
    ensures var p := Policy("whitelist", ["steve"]);
      var rs := [Round(Some(ClientChunk(login, false, Some("Steve"))), None),
                 Round(Some(ClientChunk(response, true, None)), None),
                 Round(None, Some([]))];
      && Run(Initial, rs, p) == Flags(false, "Steve", true, true)
      && ToServer(rs) == [login, response]
      && ToClient(Initial, rs, p) == [[]]
      && ClosedCalls(Run(Initial, rs, p), addr) == [SitOut("Steve", addr), Sleep(SitOutDelay), FillIn("Steve", addr)]
  {
    var p := Policy("whitelist", ["steve"]);
    var r0 := Round(Some(ClientChunk(login, false, Some("Steve"))), None);
    var r1 := Round(Some(ClientChunk(response, true, None)), None);
    var r2: Round := Round(None, Some([]));
    var rs := [r0, r1, r2];
    assert rs[..2] == [r0, r1] && [r0, r1][..1] == [r0] && [r0][..0] == [];
    var f1 := Flags(true, "Steve", false, false);
    assert Run(Initial, [r0], p) == f1;
    assert Verdict(f1, p) == Whitelisted by {
      SteveOnRoster();
    }
    assert Run(Initial, [r0, r1], p) == Flags(true, "Steve", true, true);
    assert ToServer([r0]) == [login];
    assert ToServer([r0, r1]) == [login, response];
    assert ToClient(Initial, [r0], p) == [];
    assert ToClient(Initial, [r0, r1], p) == [];
  }

  /**
   * `Steve` is not on the whitelist `["alex"]`: the encryption response is still forwarded,
   * the loop stops in that round without reading the server's pending chunk, and no seat
   * call is made.
   */
  lemma UnlistedPlayerScenario(addr: Addr, login: Chunk, response: Chunk, pending: Chunk)
    requires |login| > 0 && |response| > 0
    ensures var p := Policy("whitelist", ["alex"]);
      var rs := [Round(Some(ClientChunk(login, false, Some("Steve"))), None),
                 Round(Some(ClientChunk(response, true, None)), Some(pending))];
      && Run(Initial, rs, p) == Flags(false, "Steve", true, false)
      && ToServer(rs) == [login, response]
      && ToClient(Initial, rs, p) == []
      && ClosedCalls(Run(Initial, rs, p), addr) == []
  {
    var p := Policy("whitelist", ["alex"]);
    var r0 := Round(Some(ClientChunk(login, false, Some("Steve"))), None);
    var r1 := Round(Some(ClientChunk(response, true, None)), Some(pending));
    var rs := [r0, r1];
    assert rs[..1] == [r0] && [r0][..0] == [];
    var f1 := Flags(true, "Steve", false, false);
    assert Run(Initial, [r0], p) == f1;
    assert Verdict(f1, p) == NotWhitelisted by {
      SteveNotOnAlexRoster();
    }
    assert ToServer([r0]) == [login];
    assert ToClient(Initial, [r0], p) == [];
  }
}
