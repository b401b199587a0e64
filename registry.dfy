/**
 * The two process-wide dictionaries of the proxy: `CONNECTIONS` (client address to
 * client socket) and `CONNECTED_PLAYERS` (username to client address).
 */
module Registries {
  import opened Net

  class Registry {
    var connections: map<Addr, Socket>
    var connectedPlayers: map<string, Addr>

    /** Both dictionaries start empty when the process starts. */
    constructor ()
      ensures connections == map[] && connectedPlayers == map[]
    {
      connections := map[];
      connectedPlayers := map[];
    }

    /** `log_connection`: record the client socket under its address. */
    method LogConnection(sock: Socket, addr: Addr)
      modifies this
      ensures connections == old(connections)[addr := sock]
      ensures connectedPlayers == old(connectedPlayers)
    {
      connections := connections[addr := sock];
    }

    /** `log_player_connection`: record the player's address under the username. */
    method LogPlayerConnection(username: string, addr: Addr)
      modifies this
      ensures connectedPlayers == old(connectedPlayers)[username := addr]
      ensures connections == old(connections)
    {
      connectedPlayers := connectedPlayers[username := addr];
    }

    /** The accept loop's `CONNECTIONS.pop(addr)` inside a try that ignores a missing key. */
    method DiscardConnection(addr: Addr)
      modifies this
      ensures connections == old(connections) - {addr}
      ensures connectedPlayers == old(connectedPlayers)
    {
      connections := connections - {addr};
    }

    /**
     * The cleanup `CONNECTIONS.pop(CONNECTED_PLAYERS.pop(username))` inside a try that
     * ignores errors: a missing username leaves both dictionaries alone; a username whose
     * address is not (or no longer) a key of `CONNECTIONS` is still removed from the players.
     */
    method ForgetPlayer(username: string)
      modifies this
      ensures connectedPlayers == old(connectedPlayers) - {username}
      ensures connections ==
        if username in old(connectedPlayers) then old(connections) - {old(connectedPlayers)[username]}
        else old(connections)
    {
      if username in connectedPlayers {
        var addr := connectedPlayers[username];
        connectedPlayers := connectedPlayers - {username};
        connections := connections - {addr};
      }
    }
  }
}
