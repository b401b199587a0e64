/**
 * The access decision of the connection handler: roster membership of the connecting
 * player and the mode/membership table that allows or rejects the player.
 */
module Access {
  import opened Text

  /** The five arms of the decision table, in the order the handler tests them. */
  datatype Decision =
    | Blacklisted     // mode "blacklist", player on the roster: reject
    | Whitelisted     // mode "whitelist", player on the roster: allow
    | NotWhitelisted  // mode "whitelist", player not on the roster: reject
    | NotBlacklisted  // mode "blacklist", player not on the roster: allow
    | UnknownMode     // any other mode text: reject
  {
    /** An allowing decision hands the player's seat off; every other one ends the connection. */
    predicate Allows() { this == Whitelisted || this == NotBlacklisted }
  }

  /** The decision table, tested top to bottom; the mode is compared with exact string equality. */
  function Decide(mode: string, inRoster: bool): (d: Decision)
    ensures d.Allows() <==> (mode == "whitelist" && inRoster) || (mode == "blacklist" && !inRoster)
    ensures d == UnknownMode <==> mode != "whitelist" && mode != "blacklist"
    ensures mode == "blacklist" ==> d == (if inRoster then Blacklisted else NotBlacklisted)
    ensures mode == "whitelist" ==> d == (if inRoster then Whitelisted else NotWhitelisted)
  {
    if mode == "blacklist" && inRoster then Blacklisted
    else if mode == "whitelist" && inRoster then Whitelisted
    else if mode == "whitelist" && !inRoster then NotWhitelisted
    else if mode == "blacklist" && !inRoster then NotBlacklisted
    else UnknownMode
  }

  /**
   * Roster membership: some roster entry, taken as it is, occurs in the lower-cased
   * username. Only the username is lower-cased.
   */
  ghost predicate InRoster(roster: seq<string>, username: string) {
    exists i :: 0 <= i < |roster| && IsSubstring(roster[i], Lower(username))
  }

  /** The `for player in player_list` scan, which stops at the first entry found in the name. */
  method RosterContains(roster: seq<string>, username: string) returns (inList: bool)
    ensures inList <==> InRoster(roster, username)
  {
    var name := Lower(username);
    inList := false;
    for i := 0 to |roster|
      invariant !inList
      invariant forall j :: 0 <= j < i ==> !IsSubstring(roster[j], name)
    {
      ContainsIsSubstring(name, roster[i]);
      if Contains(name, roster[i]) {
        inList := true;
        break;
      }
    }
  }

  /** Usernames that differ only in the case of ASCII letters are on the roster together or not at all. */
  lemma NameCaseIgnored(roster: seq<string>, u: string, v: string)
    requires |u| == |v| && forall i :: 0 <= i < |u| ==> SameIgnoringCase(u[i], v[i])
    ensures InRoster(roster, u) <==> InRoster(roster, v)
  {
    assert Lower(u) == Lower(v);
  }

  /** A roster entry that holds an upper-case letter admits no username at all. */
  lemma UpperCaseEntryIgnored(roster: seq<string>, username: string, k: nat)
    requires k < |roster|
    requires exists j :: 0 <= j < |roster[k]| && IsUpper(roster[k][j])
    ensures InRoster(roster, username) <==> InRoster(roster[..k] + roster[k + 1..], username)
  {
    var rest := roster[..k] + roster[k + 1..];
    UpperEntryNeverMatches(roster[k], username);
    if InRoster(roster, username) {
      var i :| 0 <= i < |roster| && IsSubstring(roster[i], Lower(username));
      if i < k {
        assert rest[i] == roster[i];
      } else {
        assert rest[i - 1] == roster[i];
      }
    }
    if InRoster(rest, username) {
      var i :| 0 <= i < |rest| && IsSubstring(rest[i], Lower(username));
      if i < k {
        assert rest[i] == roster[i];
      } else {
        assert rest[i] == roster[i + 1];
      }
    }
  }

  /** An empty roster entry occurs in every name, so it puts every player on the roster. */
  lemma EmptyEntryMatchesAll(roster: seq<string>, username: string)
    requires "" in roster
    ensures InRoster(roster, username)
  {
    var i :| 0 <= i < |roster| && roster[i] == "";
    assert IsPrefix("", Lower(username)[0..]);
  }

  /** Roster `["steve"]` admits the username `Steve`. */
  lemma SteveOnRoster()
    ensures InRoster(["steve"], "Steve")
  {
    var roster, s := ["steve"], Lower("Steve");
    assert s == "steve";
    assert s[0..] == s;
    assert IsPrefix(roster[0], s[0..]);
    assert IsSubstring(roster[0], s);
  }

  /** Roster `["alex"]` does not admit the username `Steve`. */
  lemma SteveNotOnAlexRoster()
    ensures !InRoster(["alex"], "Steve")
  {
    var roster, s := ["alex"], Lower("Steve");
    assert s == "steve";
    forall i | 0 <= i <= |s|
      ensures !IsPrefix(roster[0], s[i..])
    {
      if i < |s| {
        assert s[i..][0] == s[i] != 'a';
      }
    }
  }
}
