/**
 * The per-connection login gate of `handle_connection` as a pure state machine over
 * `select` rounds. Its state is the four flags the handler keeps as local variables;
 * the handler class in module Proxy is proved to follow these definitions step by step.
 */
module Session {
  import opened Wrappers
  import opened Net
  import opened Text
  import opened Access

  /** The handler's locals `running`, `username`, `completed_check` and `fill_in_on_leave`. */
  datatype Flags = Flags(running: bool, username: string, completedCheck: bool, fillInOnLeave: bool)

  /** The locals as `handle_connection` initialises them. */
  const Initial := Flags(true, "", false, false)

  /** The mode (already stripped of quotes) and the roster, fetched once per connection. */
  datatype Policy = Policy(mode: string, roster: seq<string>)

  /**
   * One chunk read from the client, together with what the packet inspector reports about
   * it: whether it is the encryption response and the `username` field its decoder yields.
   */
  datatype ClientChunk = ClientChunk(data: Chunk, isEncryptionResponse: bool, parsedUsername: Option<string>)

  /** One `select` round: the chunk read from each side that was readable. */
  datatype Round = Round(client: Option<ClientChunk>, server: Option<Chunk>)

  /** Calls to the seat coordinator, and the fixed wait after `sit_out`. */
  datatype Call = SitOut(username: string, addr: Addr) | Sleep(seconds: nat) | FillIn(username: string, addr: Addr)

  /** The `time.sleep(3)` after each `sit_out`. */
  const SitOutDelay := 3

  /** What every reachable state satisfies: a decision needs a username, a seat swap needs a decision. */
  ghost predicate Consistent(f: Flags) {
    && (f.completedCheck ==> f.username != "")
    && (f.fillInOnLeave ==> f.completedCheck)
  }

  /** The chunk makes the handler run the access decision. */
  predicate TriggersCheck(f: Flags, c: ClientChunk) {
    !f.completedCheck && c.isEncryptionResponse && f.username != ""
  }

  /** The chunk makes the handler record a username. */
  predicate CapturesUsername(f: Flags, c: ClientChunk) {
    && !f.completedCheck && !c.isEncryptionResponse && f.username == ""
    && c.parsedUsername.Some? && c.parsedUsername.value != ""
  }

  /** The access decision for the captured username under the connection's policy. */
  ghost function Verdict(f: Flags, p: Policy): Decision {
    Decide(p.mode, InRoster(p.roster, f.username))
  }

  /** The flags after the client half of a round has handled chunk `c`. */
  ghost function ClientStep(f: Flags, c: ClientChunk, p: Policy): Flags {
    var f1 := if |c.data| == 0 then f.(running := false) else f;
    if TriggersCheck(f, c) then
      if Verdict(f, p).Allows() then f1.(completedCheck := true, fillInOnLeave := true)
      else f1.(completedCheck := true, running := false)
    else if CapturesUsername(f, c) then f1.(username := c.parsedUsername.value)
    else f1
  }

  /** The flags after the server half of a round has read `data`: an empty read stops the loop. */
  function ServerStep(f: Flags, data: Chunk): (g: Flags)
    ensures g.running <==> f.running && |data| != 0
    ensures g.username == f.username && g.completedCheck == f.completedCheck && g.fillInOnLeave == f.fillInOnLeave
  {
    if |data| == 0 then f.(running := false) else f
  }

  /** The flags after the client half of round `r`. */
  ghost function AfterClient(f: Flags, r: Round, p: Policy): Flags {
    if r.client.Some? then ClientStep(f, r.client.value, p) else f
  }

  /** The server side is read only while `running` still holds after the client half. */
  ghost predicate ReadsServer(f: Flags, r: Round, p: Policy) {
    r.server.Some? && AfterClient(f, r, p).running
  }

  /** The flags after a whole round. */
  ghost function RoundStep(f: Flags, r: Round, p: Policy): Flags {
    var f1 := AfterClient(f, r, p);
    if ReadsServer(f, r, p) then ServerStep(f1, r.server.value) else f1
  }

  /** The flags after the rounds `rs`, in order. */
  ghost function Run(f: Flags, rs: seq<Round>, p: Policy): Flags
    decreases |rs|
  {
    if rs == [] then f else RoundStep(Run(f, rs[..|rs| - 1], p), rs[|rs| - 1], p)
  }

  /** The buffers passed to `server.send` during the rounds `rs`, in order: each client chunk as read. */
  function ToServer(rs: seq<Round>): (sent: seq<Chunk>)
    ensures |sent| <= |rs|
    decreases |rs|
  {
    if rs == [] then []
    else
      var r := rs[|rs| - 1];
      ToServer(rs[..|rs| - 1]) + (if r.client.Some? then [r.client.value.data] else [])
  }

  /** The buffers passed to `client.send` during the rounds `rs`, in order. */
  ghost function ToClient(f: Flags, rs: seq<Round>, p: Policy): (sent: seq<Chunk>)
    ensures |sent| <= |rs|
    decreases |rs|
  {
    if rs == [] then []
    else
      var r := rs[|rs| - 1];
      ToClient(f, rs[..|rs| - 1], p)
        + (if ReadsServer(Run(f, rs[..|rs| - 1], p), r, p) then [r.server.value] else [])
  }

  /** How many of the rounds `rs` ran the access decision. */
  ghost function CheckCount(f: Flags, rs: seq<Round>, p: Policy): nat
    decreases |rs|
  {
    if rs == [] then 0
    else
      var r := rs[|rs| - 1];
      var g := Run(f, rs[..|rs| - 1], p);
      CheckCount(f, rs[..|rs| - 1], p) + (if r.client.Some? && TriggersCheck(g, r.client.value) then 1 else 0)
  }

  /** The seat calls made so far: one `sit_out` and its wait, exactly when a swap is pending. */
  function SeatCalls(f: Flags, addr: Addr): seq<Call> {
    if f.fillInOnLeave then [SitOut(f.username, addr), Sleep(SitOutDelay)] else []
  }

  /** The seat calls of a closed connection: a `fill_in` follows the `sit_out` it pairs with. */
  function ClosedCalls(f: Flags, addr: Addr): seq<Call> {
    SeatCalls(f, addr) + (if f.fillInOnLeave then [FillIn(f.username, addr)] else [])
  }

  /**
   * `b` can follow `a`: the loop never restarts, a username once set never changes,
   * and neither `completed_check` nor `fill_in_on_leave` is ever reset.
   */
  ghost predicate Follows(a: Flags, b: Flags) {
    && (b.running ==> a.running)
    && (a.username != "" ==> b.username == a.username)
    && (a.completedCheck ==> b.completedCheck)
    && (a.fillInOnLeave ==> b.fillInOnLeave)
  }

  lemma FollowsTransitive(a: Flags, b: Flags, c: Flags)
    requires Follows(a, b) && Follows(b, c)
    ensures Follows(a, c)
  {
  }

  /** One client chunk keeps the state consistent, only moves the flags forward, and says what changed. */
  lemma ClientStepProperties(f: Flags, c: ClientChunk, p: Policy)
    requires Consistent(f)
    ensures var g := ClientStep(f, c, p);
      && Consistent(g)
      && Follows(f, g)
      && (g.completedCheck && !f.completedCheck <==> TriggersCheck(f, c))
      && (g.username != f.username <==> CapturesUsername(f, c))
      && (g.fillInOnLeave && !f.fillInOnLeave <==> TriggersCheck(f, c) && Verdict(f, p).Allows())
      && (g.running <==> f.running && |c.data| != 0 && !(TriggersCheck(f, c) && !Verdict(f, p).Allows()))
  {
  }

  /**
   * The decision table's effect on the flags when the check runs: the two allowing rows set
   * `fill_in_on_leave` and keep the loop going; the two rejecting rows and the fallback stop it.
   */
  lemma CheckOutcome(f: Flags, c: ClientChunk, p: Policy)
    requires Consistent(f) && TriggersCheck(f, c)
    ensures var g := ClientStep(f, c, p); var inRoster := InRoster(p.roster, f.username);
      && g.completedCheck && g.username == f.username
      && (p.mode == "blacklist" && inRoster ==> !g.running && !g.fillInOnLeave)
      && (p.mode == "whitelist" && inRoster ==> g.fillInOnLeave && g.running == (f.running && |c.data| != 0))
      && (p.mode == "whitelist" && !inRoster ==> !g.running && !g.fillInOnLeave)
      && (p.mode == "blacklist" && !inRoster ==> g.fillInOnLeave && g.running == (f.running && |c.data| != 0))
      && (p.mode != "whitelist" && p.mode != "blacklist" ==> !g.running && !g.fillInOnLeave)
  {
  }

  lemma RoundStepProperties(f: Flags, r: Round, p: Policy)
    requires Consistent(f)
    ensures Consistent(RoundStep(f, r, p)) && Follows(f, RoundStep(f, r, p))
  {
    if r.client.Some? {
      ClientStepProperties(f, r.client.value, p);
    }
  }

  /** A whole run keeps the state consistent and only moves the flags forward. */
  lemma {:induction false} RunProperties(f: Flags, rs: seq<Round>, p: Policy)
    requires Consistent(f)
    ensures Consistent(Run(f, rs, p)) && Follows(f, Run(f, rs, p))
    decreases |rs|
  {
    if rs != [] {
      var init := rs[..|rs| - 1];
      RunProperties(f, init, p);
      RoundStepProperties(Run(f, init, p), rs[|rs| - 1], p);
      FollowsTransitive(f, Run(f, init, p), Run(f, rs, p));
    }
  }

  /**
   * The access decision runs at most once per connection, and it has run exactly when
   * `completed_check` went from false to true.
   */
  lemma {:induction false} CheckRunsOnce(f: Flags, rs: seq<Round>, p: Policy)
    requires Consistent(f)
    ensures CheckCount(f, rs, p) == if !f.completedCheck && Run(f, rs, p).completedCheck then 1 else 0
    decreases |rs|
  {
    if rs != [] {
      var init := rs[..|rs| - 1];
      var r := rs[|rs| - 1];
      var g := Run(f, init, p);
      CheckRunsOnce(f, init, p);
      RunProperties(f, init, p);
      if r.client.Some? {
        ClientStepProperties(g, r.client.value, p);
      }
    }
  }

  /** A captured username never changes again, whatever a run brings. */
  lemma {:induction false} UsernameStable(f: Flags, rs: seq<Round>, p: Policy)
    requires Consistent(f) && f.username != ""
    ensures Run(f, rs, p).username == f.username
  {
    RunProperties(f, rs, p);
  }

  /** Once the loop has stopped, no further round changes anything or forwards server bytes. */
  lemma StoppedStaysStopped(f: Flags, r: Round, p: Policy)
    requires !f.running
    ensures !RoundStep(f, r, p).running && !ReadsServer(f, r, p)
  {
  }

  /** A round that rejects the player forwards its client chunk but reads nothing from the server. */
  lemma RejectStopsRelay(f: Flags, r: Round, p: Policy)
    requires r.client.Some? && TriggersCheck(f, r.client.value) && !Verdict(f, p).Allows()
    ensures !RoundStep(f, r, p).running && !ReadsServer(f, r, p)
    ensures ToServer([r]) == [r.client.value.data]
  {
    assert [r][..0] == [];
  }

  /** The buffers passed to `server.send` over two stretches of rounds are the two stretches' buffers, concatenated. */
  lemma {:induction false} ToServerAppend(rs: seq<Round>, ts: seq<Round>)
    ensures ToServer(rs + ts) == ToServer(rs) + ToServer(ts)
    decreases |ts|
  {
    if ts == [] {
      assert rs + ts == rs;
    } else {
      var init := ts[..|ts| - 1];
      assert (rs + ts)[..|rs + ts| - 1] == rs + init;
      assert (rs + ts)[|rs + ts| - 1] == ts[|ts| - 1];
      ToServerAppend(rs, init);
    }
  }
}
