/** Players and the connections they play through: two-way links kept by registration, lost
    connections, reconnection with a token, and unregistration. */
module Registry {
  import opened Options
  import opened FdMap

  datatype PlayerState = InLobby | InGame | Disconnected
  datatype ConnState = Fresh | Handshake | Connected

  /** What the server tells the session of a player. */
  datatype Notice = UserLeft(session: nat, user: nat) | UserUnregister(session: nat, user: nat)

  class Player {
    var conn: Conn?
    const id: nat
    const token: string
    var session: nat
    var state: PlayerState

    constructor (id: nat, token: string, conn: Conn)
      ensures this.id == id && this.token == token && this.conn == conn && session == 0 && state == InLobby
    {
      this.id, this.token, this.conn, session, state := id, token, conn, 0, InLobby;
    }
  }

  class Conn {
    var player: Player?
    var state: ConnState

    /** server_conn_init */
    constructor ()
      ensures player == null && state == Fresh
    {
      player, state := null, Fresh;
    }
  }

  class Server {
    const players: Table<Player>
    var next: nat
    /** The connections that are open, and the players that are registered. */
    ghost var conns: set<Conn>
    ghost var registered: set<Player>

    ghost predicate Objects()
      reads this, players
    {
      players.Valid()
    }

    /** The table holds the registered players under their ids, which were all issued before. */
    ghost predicate Indexed()
      reads this, players, players.buffer
      requires Objects()
    {
      && 0 < next
      && (forall p | p in registered :: 1 <= p.id < next && players.At(p.id) == Some(p))
      && (forall i: int | players.At(i) != None :: players.At(i).value in registered && players.At(i).value.id == i)
    }

    /** A registered player and an open connection name each other, or neither names the other. */
    ghost predicate Matched()
      reads this, conns, registered
    {
      && (forall p | p in registered && p.conn != null :: p.conn in conns && p.conn.player == p)
      && (forall c | c in conns && c.player != null :: c.player in registered && c.player.conn == c)
    }

    ghost predicate Valid()
      reads this, players, players.buffer, conns, registered
    {
      Objects() && Indexed() && Matched()
    }

    constructor ()
      ensures Valid() && fresh(players) && fresh(players.buffer) && conns == {} && registered == {} && next == 1
    {
      var table := new Table<Player>(256);
      players, next, conns, registered := table, 1, {}, {};
    }

    /** handle_accept */
    method Accept() returns (c: Conn)
      requires Valid()
      modifies this
      ensures Valid() && fresh(c) && conns == old(conns) + {c} && c.player == null
      ensures registered == old(registered) && next == old(next)
    {
      c := new Conn();
      conns := conns + {c};
    }

    ghost predicate IsFree(i: int)
      reads this, players, players.buffer
      requires Objects()
    {
      1 <= i < (if next >= players.capacity then players.capacity - 1 else next) && players.At(i) == None
    }

    /** The smallest id given back is issued again, if one lies below the bound; else a new one is. */
    ghost predicate IsNextId(id: nat)
      reads this, players, players.buffer
      requires Objects()
    {
      if exists i :: IsFree(i) then IsFree(id) && forall i | 1 <= i < id :: !IsFree(i) else id == next
    }

    /** get_new_client_id: never the id of a registered player. */
    method NewClientId() returns (id: nat)
      requires Valid()
      modifies this`next
      ensures Valid()
      ensures 1 <= id < next && players.At(id) == None && forall p | p in registered :: p.id != id
      ensures old(IsNextId(id)) && next == if id == old(next) then old(next) + 1 else old(next)
    {
      var free := players.FirstNull(next);
      if free != -1 {
        assert IsFree(free);
        assert IsNextId(free);
        return free;
      }
      id := next;
      forall i ensures !old(IsFree(i)) { assert !IsFree(i); }
      next := next + 1;
      assert forall p | p in registered :: players.At(p.id) == Some(p);
    }

    /** A table of this capacity can hold the id. */
    static ghost predicate HasRoom(id: nat, capacity: nat) { id < 32767 || id < capacity }

    /** The new player enters the table, and nobody drops out of it, if there is room for the id.
        Otherwise the capacity wraps around below it: the player is not found. */
    method Enter(player: Player)
      requires Objects() && Indexed() && 1 <= player.id < next && players.At(player.id) == None
      modifies this`registered, players, players.buffer
      ensures Objects() && (players.buffer == old(players.buffer) || fresh(players.buffer))
      ensures HasRoom(player.id, old(players.capacity)) ==> Indexed() && registered == old(registered) + {player}
      ensures !HasRoom(player.id, old(players.capacity)) ==>
                players.At(player.id) == None && registered == old(registered)
    {
      KeptIff(player.id, players.capacity);
      ghost var room := HasRoom(player.id, players.capacity);
      var code := players.Set(player.id, Some(player));
      if room { registered := registered + {player}; }
    }

    /** register_client; its caller has checked that the connection has no player. The new player is
        linked to the connection under a fresh id. He is registered if the table has room for it. */
    method Register(conn: Conn, token: string) returns (player: Player)
      requires Valid() && conn in conns && conn.player == null
      modifies this`next, this`registered, conn, players, players.buffer
      ensures fresh(player) && conn.player == player && player.conn == conn && player.token == token
      ensures conn.state == Connected && player.session == 0 && player.state == InLobby
      ensures var id := player.id;
              old(IsNextId(id)) && next == if id == old(next) then old(next) + 1 else old(next)
      ensures 1 <= player.id <= old(next) && forall p | p in old(registered) :: p.id != player.id
      ensures Objects() && (players.buffer == old(players.buffer) || fresh(players.buffer))
      ensures HasRoom(player.id, old(players.capacity)) ==> Valid() && registered == old(registered) + {player}
      ensures !HasRoom(player.id, old(players.capacity)) ==>
                players.At(player.id) == None && registered == old(registered)
    {
      var id := NewClientId();
      player := new Player(id, token, conn);
      Enter(player);
      conn.state := Connected;
      conn.player := player;
    }

    /** The player, if there is one, lost his connection, and his session is told. */
    twostate predicate Lost(p: Player?, notices: seq<Notice>)
      reads p
    {
      if p == null then notices == []
      else
        && p.conn == null && p.state == Disconnected && p.session == old(p.session)
        && notices == if p.session != 0 then [UserLeft(p.session, p.id)] else []
    }

    /** disconnect_client: the player stays registered without a connection. */
    method Disconnect(conn: Conn) returns (code: int, notices: seq<Notice>)
      requires Valid() && conn in conns
      modifies conn`player, conn.player
      ensures Valid() && conn.player == null
      ensures code == if old(conn.player) == null then -1 else 0
      ensures Lost(old(conn.player), notices)
    {
      notices := [];
      if conn.player == null { return -1, []; }
      conn.player.conn := null;
      conn.player.state := Disconnected;
      if conn.player.session != 0 { notices := [UserLeft(conn.player.session, conn.player.id)]; }
      conn.player := null;
      return 0, notices;
    }

    /** cleanup_connection: the connection is closed, its player stays. */
    method Cleanup(conn: Conn) returns (notices: seq<Notice>)
      requires Valid() && conn in conns
      modifies this`conns, conn`player, conn.player
      ensures Valid() && conns == old(conns) - {conn} && conn.player == null
      ensures Lost(old(conn.player), notices)
    {
      notices := [];
      if conn.player != null {
        var code: int;
        code, notices := Disconnect(conn);
      }
      conns := conns - {conn};
    }

    twostate predicate SameConns(cs: set<Conn>)
      reads cs
    {
      forall c | c in cs :: unchanged(c)
    }

    twostate predicate SamePlayers(ps: set<Player>)
      reads ps
    {
      forall p | p in ps :: unchanged(p)
    }

    /** The rest of reconnect_client: a player without another connection takes this one over. */
    method Attach(player: Player, conn: Conn)
      requires Valid() && conn in conns && player in registered && (player.conn == null || player.conn == conn)
      modifies conn, conn.player, player
      ensures Valid()
      ensures player.conn == conn && conn.player == player && conn.state == Connected
      ensures player.session == old(player.session) && player.state == if player.session != 0 then InGame else InLobby
      ensures var replaced := old(conn.player);
              replaced != null && replaced != player ==>
                replaced.conn == null && replaced.state == Disconnected && replaced.session == old(replaced.session)
    {
      if conn.player != null && conn.player != player {
        conn.player.state := Disconnected;
        conn.player.conn := null;
      }
      conn.state := Connected;
      player.state := if player.session != 0 then InGame else InLobby;
      player.conn := conn;
      conn.player := player;
    }

    /** reconnect_client: with the right token the player moves to this connection. Another connection
        of his is closed, and another player of this connection is left without one. */
    method Reconnect(conn: Conn, id: int, token: string) returns (code: int, notices: seq<Notice>)
      requires Valid() && conn in conns
      modifies this`conns, conns, registered
      ensures Valid()
      ensures code == if players.At(id) == None then -1 else if players.At(id).value.token != token then -2 else 0
      ensures code != 0 ==> notices == [] && conns == old(conns) && SameConns(conns) && SamePlayers(registered)
      ensures code == 0 ==>
                conn.state == Connected && Moved(players.At(id).value, conn, old(conns), registered, notices)
    {
      notices := [];
      var found := players.Get(id);
      if found.None? { return -1, []; }
      var player := found.value;
      if player.token != token { return -2, []; }
      if player.conn != null && player.conn != conn { notices := Cleanup(player.conn); }
      Attach(player, conn);
      return 0, notices;
    }

    /** From the old state to this one, the player p took over the connection. */
    twostate predicate Moved(p: Player, conn: Conn, all: set<Conn>, everyone: set<Player>, notices: seq<Notice>)
      requires p in everyone
      reads this, all, everyone, conn
    {
      var before, replaced := old(p.conn), old(conn.player);
      && p.conn == conn && conn.player == p && p.session == old(p.session)
      && p.state == (if p.session != 0 then InGame else InLobby)
      && conns == (if before == null || before == conn then all else all - {before})
      && notices == (if before == null || before == conn || p.session == 0 then [] else [UserLeft(p.session, p.id)])
      && (replaced != null && replaced != p ==>
            replaced in everyone && replaced.conn == null && replaced.state == Disconnected
            && replaced.session == old(replaced.session))
      && SameConns(all - {conn, before})
      && SamePlayers(everyone - {p, replaced})
    }

    method Forget(player: Player)
      requires Objects() && Indexed() && player in registered
      modifies this`registered, players.buffer
      ensures Objects() && Indexed() && registered == old(registered) - {player}
    {
      players.Remove(player.id);
      registered := registered - {player};
    }

    /** unregister_client: the player is forgotten, his connection stays open without a player. */
    method Unregister(id: int) returns (code: int, notices: seq<Notice>)
      requires Valid()
      modifies this`registered, players.buffer, conns
      ensures Valid()
      ensures old(players.At(id)) == None ==>
                code == -1 && notices == [] && registered == old(registered) && SameConns(conns)
      ensures old(players.At(id)) != None ==>
                var p := old(players.At(id)).value;
                && code == 0 && registered == old(registered) - {p}
                && notices == (if p.session != 0 then [UserUnregister(p.session, p.id)] else [])
                && (p.conn != null ==> p.conn.player == null && p.conn.state == Handshake)
                && SameConns(conns - {p.conn})
    {
      notices := [];
      var found := players.Get(id);
      if found.None? { return -1, []; }
      var player := found.value;
      if player.conn != null {
        player.conn.state := Handshake;
        player.conn.player := null;
      }
      if player.session != 0 { notices := [UserUnregister(player.session, player.id)]; }
      Forget(player);
      return 0, notices;
    }
  }
}
