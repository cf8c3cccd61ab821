/** A cluster of chat servers over one user table, one offline store and one publish/subscribe
    broker. Every handler is one atomic step. */
module ChatCluster {

  type Connection = nat
  type Server = nat

  datatype Account = Account(name: string, password: string, online: bool)

  /** A direct message: the user it is for and its text. */
  datatype Mail = Mail(to: int, text: string)

  /** A message written to a client connection. */
  datatype Delivery = Delivery(conn: Connection, mail: Mail)

  /** Per server: `conns` is the map from users to connections, `subs` the subscribed channels and
      `flight` what the broker has published to it but not delivered. The user table and the rows
      of the offline store are shared. `open` gives the server of every open connection. `issued`,
      `sent` and `sessions` record the run. */
  datatype State = State(
    conns: seq<map<int, Connection>>, subs: seq<set<int>>, flight: seq<seq<Mail>>,
    accounts: map<int, Account>, nextId: int, offline: seq<Mail>,
    open: map<Connection, Server>,
    issued: seq<Mail>, sent: seq<Delivery>, sessions: set<(Connection, int)>)

  /** The id of a `UserEntity` that stands for no row of the user table. */
  const NOBODY := -1

  function Initial(servers: nat): State {
    State(seq(servers, _ => map[]), seq(servers, _ => {}), seq(servers, _ => []),
          map[], 1, [], map[], [], [], {})
  }

  /** `pick` of Close is the user its search finds first. */
  datatype Step =
    | Connect(conn: Connection, server: Server)
    | Register(name: string, password: string, inserted: bool)
    | Login(conn: Connection, id: int, password: string)
    | Logout(conn: Connection, id: int)
    | DirectChat(conn: Connection, mail: Mail)
    | Deliver(server: Server)
    | Close(conn: Connection, pick: int)

  // ----- the handlers -----

  /** The table row of `id`, or the default entity. */
  function Query(table: map<int, Account>, id: int): (int, Account) {
    if id in table then (id, table[id]) else (NOBODY, Account("", "", false))
  }

  /** `update user set state = … where id = …`; without such a row nothing happens. */
  function UpdateState(s: State, id: int, online: bool): State {
    if id in s.accounts then s.(accounts := s.accounts[id := s.accounts[id].(online := online)]) else s
  }

  predicate PasswordRight(s: State, id: int, password: string) {
    Query(s.accounts, id).0 == id && Query(s.accounts, id).1.password == password
  }

  predicate LoginAccepted(s: State, id: int, password: string) {
    PasswordRight(s, id, password) && !Query(s.accounts, id).1.online
  }

  /** Who may log in: a registered user with the right password who is not online, and anybody who
      gives the id and the empty password of the default entity. */
  lemma LoginAcceptedIff(s: State, id: int, password: string)
    requires NOBODY !in s.accounts
    ensures LoginAccepted(s, id, password) <==>
      (id in s.accounts && s.accounts[id].password == password && !s.accounts[id].online) || (id == NOBODY && password == "")
  {
  }

  function RowsOf(rows: seq<Mail>, id: int): seq<Mail> {
    if rows == [] then [] else (if rows[0].to == id then [rows[0]] else []) + RowsOf(rows[1..], id)
  }

  function RowsWithout(rows: seq<Mail>, id: int): seq<Mail> {
    if rows == [] then [] else (if rows[0].to == id then [] else [rows[0]]) + RowsWithout(rows[1..], id)
  }

  function Delivered(conn: Connection, mails: seq<Mail>): (r: seq<Delivery>)
    ensures |r| == |mails|
  {
    if mails == [] then [] else [Delivery(conn, mails[0])] + Delivered(conn, mails[1..])
  }

  /** `map::insert` does not overwrite. */
  function Inserted(m: map<int, Connection>, id: int, conn: Connection): map<int, Connection> {
    if id in m then m else m[id := conn]
  }

  function LoginStep(s: State, conn: Connection, server: Server, id: int, password: string): State
    requires server < |s.conns| == |s.subs|
  {
    if !LoginAccepted(s, id, password) then s else
    UpdateState(s, id, true).(
      conns := s.conns[server := Inserted(s.conns[server], id, conn)],
      subs := s.subs[server := s.subs[server] + {id}],
      offline := RowsWithout(s.offline, id),
      sent := s.sent + Delivered(conn, RowsOf(s.offline, id)),
      sessions := s.sessions + {(conn, id)})
  }

  function LogoutStep(s: State, server: Server, id: int): State
    requires server < |s.conns| == |s.subs|
  {
    UpdateState(s, id, false).(
      conns := s.conns[server := s.conns[server] - {id}],
      subs := s.subs[server := s.subs[server] - {id}])
  }

  /** The broker hands a published message to every server subscribed to its channel. */
  function Published(flight: seq<seq<Mail>>, subs: seq<set<int>>, mail: Mail): (r: seq<seq<Mail>>)
    requires |flight| == |subs|
    ensures |r| == |flight|
  {
    seq(|flight|, k requires 0 <= k < |flight| => if mail.to in subs[k] then flight[k] + [mail] else flight[k])
  }

  function DirectChatStep(s: State, server: Server, mail: Mail): State
    requires server < |s.conns| && |s.flight| == |s.subs|
  {
    var t := s.(issued := s.issued + [mail]);
    if mail.to in s.conns[server] then t.(sent := s.sent + [Delivery(s.conns[server][mail.to], mail)])
    else if Query(s.accounts, mail.to).1.online then t.(flight := Published(s.flight, s.subs, mail))
    else t.(offline := s.offline + [mail])
  }

  function DeliverStep(s: State, server: Server): State
    requires server < |s.conns| == |s.flight| && s.flight[server] != []
  {
    var mail := s.flight[server][0];
    var t := s.(flight := s.flight[server := s.flight[server][1..]]);
    if mail.to in s.conns[server] then t.(sent := s.sent + [Delivery(s.conns[server][mail.to], mail)])
    else t.(offline := s.offline + [mail])
  }

  /** Some user of the map has this connection. */
  predicate Carries(m: map<int, Connection>, conn: Connection) {
    exists i :: i in m && m[i] == conn
  }

  /** The user that the search through the map of the connection's server may find. */
  predicate Found(s: State, conn: Connection, server: Server, pick: int)
    requires server < |s.conns|
  {
    if Carries(s.conns[server], conn) then pick in s.conns[server] && s.conns[server][pick] == conn else pick == NOBODY
  }

  function CloseStep(s: State, conn: Connection, server: Server, pick: int): State
    requires server < |s.conns| == |s.subs|
  {
    var t := if pick != NOBODY then UpdateState(s, pick, false) else s;
    t.(conns := if Carries(s.conns[server], conn) then s.conns[server := s.conns[server] - {pick}] else s.conns,
       subs := s.subs[server := s.subs[server] - {pick}],
       open := s.open - {conn})
  }

  predicate Shaped(s: State) {
    && |s.conns| == |s.subs| == |s.flight|
    && forall c :: c in s.open ==> s.open[c] < |s.conns|
  }

  predicate Enabled(s: State, a: Step)
    requires Shaped(s)
  {
    match a
    case Connect(conn, server) => conn !in s.open && server < |s.conns|
    case Register(_, _, _) => true
    case Login(conn, _, _) => conn in s.open
    case Logout(conn, _) => conn in s.open
    case DirectChat(conn, _) => conn in s.open
    case Deliver(server) => server < |s.conns| && s.flight[server] != []
    case Close(conn, pick) => conn in s.open && Found(s, conn, s.open[conn], pick)
  }

  function Apply(s: State, a: Step): (r: State)
    requires Shaped(s)
    ensures Shaped(r)
  {
    if !Enabled(s, a) then s else
    match a
    case Connect(conn, server) => s.(open := s.open[conn := server])
    case Register(name, password, inserted) =>
      if inserted then s.(accounts := s.accounts[s.nextId := Account(name, password, false)], nextId := s.nextId + 1) else s
    case Login(conn, id, password) => LoginStep(s, conn, s.open[conn], id, password)
    case Logout(conn, id) => LogoutStep(s, s.open[conn], id)
    case DirectChat(conn, mail) => DirectChatStep(s, s.open[conn], mail)
    case Deliver(server) => DeliverStep(s, server)
    case Close(conn, pick) => CloseStep(s, conn, s.open[conn], pick)
  }

  // ----- the registry -----

  predicate Maps(s: State, k: Server, id: int) {
    k < |s.conns| && id in s.conns[k]
  }

  predicate Subscribes(s: State, k: Server, id: int) {
    k < |s.subs| && id in s.subs[k]
  }

  /** A registered user is online iff some server maps it, and at most one does; exactly the
      servers that map a registered user subscribe its channel. */
  ghost predicate UserRight(s: State, id: int)
    requires id in s.accounts
  {
    && (s.accounts[id].online <==> exists k: Server :: Maps(s, k, id))
    && (forall j: Server, k: Server :: Maps(s, j, id) && Maps(s, k, id) ==> j == k)
    && (forall k: Server :: Maps(s, k, id) <==> Subscribes(s, k, id))
  }

  /** Only table rows and the default entity are ever mapped or subscribed. */
  ghost predicate KnownOnly(s: State) {
    && 1 <= s.nextId
    && (forall id :: id in s.accounts ==> 1 <= id < s.nextId)
    && (forall k: Server, id :: Maps(s, k, id) ==> id in s.accounts || id == NOBODY)
    && (forall k: Server, id :: Subscribes(s, k, id) ==> id in s.accounts || id == NOBODY)
  }

  /** Users are mapped to open connections of the same server, which logged in as them. */
  ghost predicate ConnectionsRight(s: State) {
    forall k: Server, id :: Maps(s, k, id) ==>
      && s.conns[k][id] in s.open && s.open[s.conns[k][id]] == k && (s.conns[k][id], id) in s.sessions
  }

  ghost predicate Registry(s: State) {
    && Shaped(s) && KnownOnly(s) && ConnectionsRight(s)
    && (forall id {:trigger UserRight(s, id)} :: id in s.accounts ==> UserRight(s, id))
  }

  /** No connection is mapped for two users. */
  ghost predicate OneUserEach(s: State) {
    forall k: Server, i, j :: Maps(s, k, i) && Maps(s, k, j) && s.conns[k][i] == s.conns[k][j] ==> i == j
  }

  ghost predicate AtMostOneUser(s: State, conn: Connection) {
    forall k: Server, i, j :: Maps(s, k, i) && Maps(s, k, j) && s.conns[k][i] == conn == s.conns[k][j] ==> i == j
  }

  lemma UpdateOne(s: State, id: int, online: bool)
    ensures forall i :: i in UpdateState(s, id, online).accounts <==> i in s.accounts
    ensures forall i :: i in s.accounts && i != id ==> UpdateState(s, id, online).accounts[i] == s.accounts[i]
    ensures id in s.accounts ==> UpdateState(s, id, online).accounts[id].online == online
  {
  }

  /** A user that a step neither maps, unmaps, subscribes nor updates is as right as before. */
  lemma UserUntouched(s: State, t: State, id: int)
    requires id in s.accounts && id in t.accounts && UserRight(s, id)
    requires t.accounts[id].online == s.accounts[id].online
    requires forall k: Server :: Maps(t, k, id) <==> Maps(s, k, id)
    requires forall k: Server :: Subscribes(t, k, id) <==> Subscribes(s, k, id)
    ensures UserRight(t, id)
  {
    if k: Server :| Maps(s, k, id) {
      assert Maps(t, k, id);
    }
  }

  lemma LoginEffect(s: State, conn: Connection, server: Server, id: int, password: string)
    requires Shaped(s) && server < |s.conns| && LoginAccepted(s, id, password)
    ensures var t := LoginStep(s, conn, server, id, password);
      && Shaped(t)
      && (forall k: Server, i :: Maps(t, k, i) <==> Maps(s, k, i) || (k == server && i == id))
      && (forall k: Server, i :: Subscribes(t, k, i) <==> Subscribes(s, k, i) || (k == server && i == id))
      && (forall k: Server, i :: Maps(s, k, i) ==> t.conns[k][i] == s.conns[k][i])
      && (!Maps(s, server, id) ==> t.conns[server][id] == conn)
  {
  }

  lemma LoginKeepsRegistry(s: State, conn: Connection, id: int, password: string)
    requires Registry(s) && conn in s.open
    ensures Registry(LoginStep(s, conn, s.open[conn], id, password))
  {
    hide LoginStep, Maps, Subscribes;
    var server := s.open[conn];
    var t := LoginStep(s, conn, server, id, password);
    if LoginAccepted(s, id, password) {
      LoginEffect(s, conn, server, id, password);
      LoginRest(s, conn, server, id, password);
      forall i | i in t.accounts ensures UserRight(t, i) {
        assert UserRight(s, i);
        if i != id {
          UserUntouched(s, t, i);
        } else {
          assert Maps(t, server, id);
        }
      }
    } else {
      LoginRefused(s, conn, server, id, password);
    }
  }

  lemma LoginRefused(s: State, conn: Connection, server: Server, id: int, password: string)
    requires Shaped(s) && server < |s.conns| && !LoginAccepted(s, id, password)
    ensures LoginStep(s, conn, server, id, password) == s
  {
  }

  lemma LoginRest(s: State, conn: Connection, server: Server, id: int, password: string)
    requires Shaped(s) && server < |s.conns| && LoginAccepted(s, id, password)
    ensures var t := LoginStep(s, conn, server, id, password);
      && t.open == s.open && t.nextId == s.nextId && t.sessions == s.sessions + {(conn, id)}
      && t.accounts.Keys == s.accounts.Keys
      && (forall i :: i in s.accounts && i != id ==> t.accounts[i] == s.accounts[i])
      && (id in s.accounts ==> t.accounts[id].online && !s.accounts[id].online)
      && (id !in s.accounts ==> id == NOBODY)
  {
    UpdateOne(s, id, true);
  }

  lemma LogoutEffect(s: State, server: Server, id: int)
    requires Shaped(s) && server < |s.conns|
    ensures var t := LogoutStep(s, server, id);
      && Shaped(t)
      && (forall k: Server, i :: Maps(t, k, i) <==> Maps(s, k, i) && !(k == server && i == id))
      && (forall k: Server, i :: Subscribes(t, k, i) <==> Subscribes(s, k, i) && !(k == server && i == id))
      && (forall k: Server, i :: Maps(t, k, i) ==> t.conns[k][i] == s.conns[k][i])
  {
  }

  lemma LogoutRest(s: State, server: Server, id: int)
    requires Shaped(s) && server < |s.conns|
    ensures var t := LogoutStep(s, server, id);
      && t.open == s.open && t.nextId == s.nextId && t.sessions == s.sessions
      && t.accounts.Keys == s.accounts.Keys
      && (forall i :: i in s.accounts && i != id ==> t.accounts[i] == s.accounts[i])
      && (id in s.accounts ==> !t.accounts[id].online)
  {
    UpdateOne(s, id, false);
  }

  /** A logout keeps the registry right exactly when the server that handles it maps the user, or
      the user was not online. */
  lemma LogoutKeepsRegistryIff(s: State, conn: Connection, id: int)
    requires Registry(s) && conn in s.open
    ensures Registry(LogoutStep(s, s.open[conn], id))
       <==> Maps(s, s.open[conn], id) || !Query(s.accounts, id).1.online
  {
    hide LogoutStep, Maps, Subscribes;
    var server := s.open[conn];
    var t := LogoutStep(s, server, id);
    LogoutEffect(s, server, id);
    LogoutRest(s, server, id);
    if id in s.accounts {
      assert UserRight(s, id);
    }
    if Maps(s, server, id) || !Query(s.accounts, id).1.online {
      forall i | i in t.accounts ensures UserRight(t, i) {
        assert UserRight(s, i);
        if i != id {
          UserUntouched(s, t, i);
        }
      }
    } else {
      var k: Server :| Maps(s, k, id);
      assert Maps(t, k, id);
      assert !UserRight(t, id);
    }
  }

  lemma CloseEffect(s: State, conn: Connection, server: Server, pick: int)
    requires Shaped(s) && server < |s.conns| && Found(s, conn, server, pick)
    ensures var t := CloseStep(s, conn, server, pick);
      && Shaped(t)
      && (forall k: Server, i :: Maps(t, k, i) <==> Maps(s, k, i) && !(k == server && i == pick && s.conns[k][i] == conn))
      && (forall k: Server, i :: Subscribes(t, k, i) <==> Subscribes(s, k, i) && !(k == server && i == pick))
      && (forall k: Server, i :: Maps(t, k, i) ==> t.conns[k][i] == s.conns[k][i])
  {
  }

  lemma CloseRest(s: State, conn: Connection, server: Server, pick: int)
    requires Shaped(s) && server < |s.conns| && Found(s, conn, server, pick) && NOBODY !in s.accounts
    ensures var t := CloseStep(s, conn, server, pick);
      && t.open == s.open - {conn} && t.nextId == s.nextId && t.sessions == s.sessions
      && t.accounts.Keys == s.accounts.Keys
      && (forall i :: i in s.accounts && i != pick ==> t.accounts[i] == s.accounts[i])
      && (pick in s.accounts ==> !t.accounts[pick].online && Maps(s, server, pick) && s.conns[server][pick] == conn)
      && (forall i :: Maps(s, server, i) && s.conns[server][i] == conn ==> Maps(s, server, pick) && s.conns[server][pick] == conn)
  {
    UpdateOne(s, pick, false);
    if i :| Maps(s, server, i) && s.conns[server][i] == conn {
      assert Carries(s.conns[server], conn);
    }
  }

  /** The end of a connection keeps the registry right exactly when it carried at most one user. */
  lemma CloseKeepsRegistryIff(s: State, conn: Connection, pick: int)
    requires Registry(s) && conn in s.open && Found(s, conn, s.open[conn], pick)
    ensures Registry(CloseStep(s, conn, s.open[conn], pick)) <==> AtMostOneUser(s, conn)
  {
    hide CloseStep, Found;
    var server := s.open[conn];
    var t := CloseStep(s, conn, server, pick);
    CloseEffect(s, conn, server, pick);
    CloseRest(s, conn, server, pick);
    CloseKeepsUsers(s, conn, pick);
    CloseKeepsConnectionsIff(s, conn, pick);
  }

  lemma CloseKeepsUsers(s: State, conn: Connection, pick: int)
    requires Registry(s) && conn in s.open && Found(s, conn, s.open[conn], pick)
    ensures var t := CloseStep(s, conn, s.open[conn], pick);
      forall i :: i in t.accounts ==> UserRight(t, i)
  {
    hide CloseStep, Found, Maps, Subscribes, ConnectionsRight;
    var server := s.open[conn];
    var t := CloseStep(s, conn, server, pick);
    CloseEffect(s, conn, server, pick);
    CloseRest(s, conn, server, pick);
    forall i | i in t.accounts ensures UserRight(t, i) {
      assert UserRight(s, i);
      if i != pick {
        UserUntouched(s, t, i);
      }
    }
  }

  lemma CloseKeepsConnectionsIff(s: State, conn: Connection, pick: int)
    requires Registry(s) && conn in s.open && Found(s, conn, s.open[conn], pick)
    ensures var t := CloseStep(s, conn, s.open[conn], pick);
      Shaped(t) && (ConnectionsRight(t) <==> AtMostOneUser(s, conn))
  {
    hide CloseStep, Found, UserRight;
    var server := s.open[conn];
    var t := CloseStep(s, conn, server, pick);
    CloseEffect(s, conn, server, pick);
    CloseRest(s, conn, server, pick);
    if AtMostOneUser(s, conn) {
      forall k: Server, id | Maps(t, k, id) ensures t.conns[k][id] in t.open {
        assert Maps(s, k, id);
      }
    } else {
      var k: Server, i, j :| Maps(s, k, i) && Maps(s, k, j) && s.conns[k][i] == conn == s.conns[k][j] && i != j;
      assert Maps(t, k, if i == pick then j else i);
    }
  }

  /** A login keeps "one user per connection" exactly when it is refused, maps nothing new, or comes
      from a connection that carries no user. */
  lemma LoginKeepsOneUserIff(s: State, conn: Connection, id: int, password: string)
    requires Registry(s) && OneUserEach(s) && conn in s.open
    ensures OneUserEach(LoginStep(s, conn, s.open[conn], id, password))
       <==> !LoginAccepted(s, id, password) || Maps(s, s.open[conn], id) || !Carries(s.conns[s.open[conn]], conn)
  {
    hide LoginStep, LoginAccepted, Subscribes, UserRight;
    var server := s.open[conn];
    var t := LoginStep(s, conn, server, id, password);
    if LoginAccepted(s, id, password) {
      LoginEffect(s, conn, server, id, password);
      if !Maps(s, server, id) && Carries(s.conns[server], conn) {
        var j :| j in s.conns[server] && s.conns[server][j] == conn;
        assert Maps(s, server, j);
        assert Maps(t, server, j) && Maps(t, server, id) && t.conns[server][j] == t.conns[server][id] && j != id;
      } else if !Maps(s, server, id) {
        forall k: Server, i, j | Maps(t, k, i) && Maps(t, k, j) && t.conns[k][i] == t.conns[k][j] ensures i == j {
          assert Maps(s, k, i) || (k == server && i == id);
          assert Maps(s, k, j) || (k == server && j == id);
        }
      }
    } else {
      LoginRefused(s, conn, server, id, password);
    }
  }

  /** Both states have the same registry. */
  predicate SameRegistry(s: State, t: State) {
    && t.conns == s.conns && t.subs == s.subs && |t.flight| == |s.flight| && t.accounts == s.accounts
    && t.nextId == s.nextId && t.open == s.open && t.sessions == s.sessions
  }

  lemma SameRegistryKeeps(s: State, t: State)
    requires Registry(s) && SameRegistry(s, t)
    ensures Registry(t) && (OneUserEach(s) ==> OneUserEach(t))
  {
    hide UserRight;
    assert forall k: Server, id :: Maps(t, k, id) <==> Maps(s, k, id);
    assert forall k: Server, id :: Subscribes(t, k, id) <==> Subscribes(s, k, id);
    forall id | id in t.accounts ensures UserRight(t, id) {
      assert UserRight(s, id);
      UserSame(s, t, id);
    }
  }

  lemma UserSame(s: State, t: State, id: int)
    requires SameRegistry(s, t) && id in s.accounts && UserRight(s, id)
    ensures UserRight(t, id)
  {
    UserUntouched(s, t, id);
  }

  lemma ConnectKeepsRegistry(s: State, conn: Connection, server: Server)
    requires Registry(s) && Enabled(s, Connect(conn, server))
    ensures Registry(s.(open := s.open[conn := server])) && (OneUserEach(s) ==> OneUserEach(s.(open := s.open[conn := server])))
  {
    var t := s.(open := s.open[conn := server]);
    assert forall k: Server, id :: Maps(t, k, id) <==> Maps(s, k, id);
    assert forall k: Server, id :: Subscribes(t, k, id) <==> Subscribes(s, k, id);
    forall id | id in t.accounts ensures UserRight(t, id) {
      assert UserRight(s, id);
      UserUntouched(s, t, id);
    }
    forall k: Server, id | Maps(t, k, id)
      ensures t.conns[k][id] in t.open && t.open[t.conns[k][id]] == k && (t.conns[k][id], id) in t.sessions {
      assert Maps(s, k, id);
    }
    forall k: Server, i, j | Maps(t, k, i) && Maps(t, k, j) && t.conns[k][i] == t.conns[k][j] && OneUserEach(s) ensures i == j {
      assert Maps(s, k, i) && Maps(s, k, j);
    }
  }

  lemma RegisterKeepsRegistry(s: State, name: string, password: string, inserted: bool)
    requires Registry(s)
    ensures Registry(Apply(s, Register(name, password, inserted)))
    ensures OneUserEach(s) ==> OneUserEach(Apply(s, Register(name, password, inserted)))
  {
    var t := Apply(s, Register(name, password, inserted));
    assert forall k: Server, id :: Maps(t, k, id) <==> Maps(s, k, id);
    assert forall k: Server, id :: Subscribes(t, k, id) <==> Subscribes(s, k, id);
    forall id | id in t.accounts ensures UserRight(t, id) {
      if id in s.accounts {
        assert UserRight(s, id);
        UserUntouched(s, t, id);
      }
    }
  }

  /** A logout that the registry survives, and a login that leaves one user per connection. */
  predicate Polite(s: State, a: Step)
    requires Shaped(s)
  {
    match a
    case Login(conn, id, password) =>
      conn in s.open ==> !LoginAccepted(s, id, password) || Maps(s, s.open[conn], id) || !Carries(s.conns[s.open[conn]], conn)
    case Logout(conn, id) => conn in s.open ==> Maps(s, s.open[conn], id) || !Query(s.accounts, id).1.online
    case _ => true
  }

  lemma FewerMapsKeepOneUser(s: State, t: State)
    requires OneUserEach(s) && forall k: Server, i :: Maps(t, k, i) ==> Maps(s, k, i) && t.conns[k][i] == s.conns[k][i]
    ensures OneUserEach(t)
  {
    forall k: Server, i, j | Maps(t, k, i) && Maps(t, k, j) && t.conns[k][i] == t.conns[k][j] ensures i == j {
      assert Maps(s, k, i) && Maps(s, k, j);
    }
  }

  lemma StepKeepsRegistry(s: State, a: Step)
    requires Registry(s) && OneUserEach(s) && Polite(s, a)
    ensures Registry(Apply(s, a)) && OneUserEach(Apply(s, a))
  {
    if Enabled(s, a) {
      hide Registry, OneUserEach, LoginStep, LogoutStep, CloseStep, DeliverStep, DirectChatStep, LoginAccepted, Maps;
      match a
      case Connect(conn, server) => ConnectKeepsRegistry(s, conn, server);
      case Register(name, password, inserted) => RegisterKeepsRegistry(s, name, password, inserted);
      case Login(conn, id, password) =>
        LoginKeepsRegistry(s, conn, id, password);
        LoginKeepsOneUserIff(s, conn, id, password);
      case Logout(conn, id) =>
        LogoutKeepsRegistryIff(s, conn, id);
        LogoutEffect(s, s.open[conn], id);
        FewerMapsKeepOneUser(s, LogoutStep(s, s.open[conn], id));
      case DirectChat(conn, mail) =>
        ChatKeepsRegistry(s, DirectChatStep(s, s.open[conn], mail), s.open[conn], mail);
      case Deliver(server) =>
        DeliverKeepsRegistry(s, server);
      case Close(conn, pick) =>
        OneUserIsAtMostOne(s, conn);
        CloseKeepsRegistryIff(s, conn, pick);
        CloseEffect(s, conn, s.open[conn], pick);
        FewerMapsKeepOneUser(s, CloseStep(s, conn, s.open[conn], pick));
    }
  }

  lemma OneUserIsAtMostOne(s: State, conn: Connection)
    requires OneUserEach(s)
    ensures AtMostOneUser(s, conn)
  {
  }

  lemma ChatKeepsRegistry(s: State, t: State, server: Server, mail: Mail)
    requires Registry(s) && OneUserEach(s) && server < |s.conns| && t == DirectChatStep(s, server, mail)
    ensures Registry(t) && OneUserEach(t)
  {
    SameRegistryKeeps(s, t);
  }

  lemma DeliverKeepsRegistry(s: State, server: Server)
    requires Registry(s) && OneUserEach(s) && server < |s.conns| && s.flight[server] != []
    ensures Registry(DeliverStep(s, server)) && OneUserEach(DeliverStep(s, server))
  {
    SameRegistryKeeps(s, DeliverStep(s, server));
  }

  // ----- conservation of messages -----

  function Mails(ds: seq<Delivery>): multiset<Mail> {
    if ds == [] then multiset{} else multiset{ds[0].mail} + Mails(ds[1..])
  }

  function Total(qs: seq<seq<Mail>>): multiset<Mail> {
    if qs == [] then multiset{} else multiset(qs[0]) + Total(qs[1..])
  }

  /** Every message issued is in exactly one place: written to a connection, in flight in the
      broker, or in the offline store. */
  ghost predicate Conserved(s: State) {
    multiset(s.issued) == Mails(s.sent) + Total(s.flight) + multiset(s.offline)
  }

  lemma MailsConcat(a: seq<Delivery>, b: seq<Delivery>)
    ensures Mails(a + b) == Mails(a) + Mails(b)
  {
    if a == [] {
      assert a + b == b;
    } else {
      assert (a + b)[1..] == a[1..] + b;
      MailsConcat(a[1..], b);
    }
  }

  lemma MailsSnoc(ds: seq<Delivery>, d: Delivery)
    ensures Mails(ds + [d]) == Mails(ds) + multiset{d.mail}
  {
    MailsConcat(ds, [d]);
    assert [d][1..] == [];
  }

  lemma MailsDelivered(conn: Connection, mails: seq<Mail>)
    ensures Mails(Delivered(conn, mails)) == multiset(mails)
  {
    if mails != [] {
      MailsDelivered(conn, mails[1..]);
      assert mails == [mails[0]] + mails[1..];
    }
  }

  /** The rows of one user and the others make up the table. */
  lemma RowsSplit(rows: seq<Mail>, id: int)
    ensures multiset(rows) == multiset(RowsOf(rows, id)) + multiset(RowsWithout(rows, id))
    ensures forall m :: m in RowsOf(rows, id) ==> m.to == id
    ensures forall m :: m in RowsWithout(rows, id) ==> m.to != id
  {
    if rows != [] {
      RowsSplit(rows[1..], id);
      assert rows == [rows[0]] + rows[1..];
    }
  }

  lemma Cancel(x: multiset<Mail>, y: multiset<Mail>, z: multiset<Mail>)
    requires x + z == y + z
    ensures x == y
  {
    forall m ensures x[m] == y[m] {
      assert (x + z)[m] == (y + z)[m];
    }
  }

  lemma TotalUpdate(qs: seq<seq<Mail>>, k: nat, q: seq<Mail>)
    requires k < |qs|
    ensures Total(qs[k := q]) + multiset(qs[k]) == Total(qs) + multiset(q)
  {
    if k == 0 {
      assert qs[k := q][1..] == qs[1..];
    } else {
      assert qs[k := q][1..] == qs[1..][k - 1 := q] && qs[k := q][0] == qs[0] && qs[1..][k - 1] == qs[k];
      TotalUpdate(qs[1..], k - 1, q);
      var head, rest, changed := multiset(qs[0]), Total(qs[1..]), Total(qs[1..][k - 1 := q]);
      assert Total(qs[k := q]) == head + changed;
      assert (head + changed) + multiset(qs[k]) == head + (changed + multiset(qs[k]));
      assert head + (rest + multiset(q)) == (head + rest) + multiset(q);
    }
  }

  lemma TotalOfEmpty(qs: seq<seq<Mail>>)
    requires forall q :: q in qs ==> q == []
    ensures Total(qs) == multiset{}
  {
    if qs != [] {
      assert qs[0] in qs && forall q :: q in qs[1..] ==> q in qs;
      TotalOfEmpty(qs[1..]);
    }
  }

  /** Publishing to an online user reaches exactly one queue. */
  lemma PublishOnce(s: State, mail: Mail) returns (k: Server)
    requires Registry(s) && mail.to in s.accounts && s.accounts[mail.to].online
    ensures Maps(s, k, mail.to)
    ensures Published(s.flight, s.subs, mail) == s.flight[k := s.flight[k] + [mail]]
  {
    assert UserRight(s, mail.to);
    k :| Maps(s, k, mail.to);
    forall j: nat | j < |s.flight| ensures mail.to in s.subs[j] <==> j == k {
      assert Subscribes(s, j, mail.to) <==> mail.to in s.subs[j];
      assert Maps(s, j, mail.to) ==> j == k;
    }
  }

  lemma SnocMultiset(ms: seq<Mail>, m: Mail)
    ensures multiset(ms + [m]) == multiset(ms) + multiset{m}
  {
  }

  lemma AddMail(issued: multiset<Mail>, sent: multiset<Mail>, flight: multiset<Mail>, offline: multiset<Mail>, m: multiset<Mail>)
    requires issued == sent + flight + offline
    ensures issued + m == (sent + m) + flight + offline
    ensures issued + m == sent + (flight + m) + offline
    ensures issued + m == sent + flight + (offline + m)
  {
  }

  lemma TotalPush(qs: seq<seq<Mail>>, k: nat, m: Mail)
    requires k < |qs|
    ensures Total(qs[k := qs[k] + [m]]) == Total(qs) + multiset{m}
  {
    TotalUpdate(qs, k, qs[k] + [m]);
    SnocMultiset(qs[k], m);
    var x, y, z := Total(qs[k := qs[k] + [m]]), Total(qs), multiset(qs[k]);
    assert x + z == (y + multiset{m}) + z;
    Cancel(x, y + multiset{m}, z);
  }

  lemma TotalPop(qs: seq<seq<Mail>>, k: nat)
    requires k < |qs| && qs[k] != []
    ensures Total(qs) == Total(qs[k := qs[k][1..]]) + multiset{qs[k][0]}
  {
    TotalUpdate(qs, k, qs[k][1..]);
    assert qs[k] == [qs[k][0]] + qs[k][1..];
    var x, y, z := Total(qs[k := qs[k][1..]]), Total(qs), multiset(qs[k][1..]);
    assert multiset(qs[k]) == multiset{qs[k][0]} + z;
    assert x + multiset{qs[k][0]} + z == y + z;
    Cancel(x + multiset{qs[k][0]}, y, z);
  }

  lemma ChatConserves(s: State, server: Server, mail: Mail)
    requires Registry(s) && Conserved(s) && server < |s.conns|
    ensures Shaped(s) && Conserved(DirectChatStep(s, server, mail))
  {
    hide Registry, Published, Total, Mails;
    RegistryShaped(s);
    SnocMultiset(s.issued, mail);
    SnocMultiset(s.offline, mail);
    AddMail(multiset(s.issued), Mails(s.sent), Total(s.flight), multiset(s.offline), multiset{mail});
    if mail.to in s.conns[server] {
      MailsSnoc(s.sent, Delivery(s.conns[server][mail.to], mail));
    } else if Query(s.accounts, mail.to).1.online {
      var k := PublishOnce(s, mail);
      TotalPush(s.flight, k, mail);
    }
  }

  lemma RegistryShaped(s: State)
    requires Registry(s)
    ensures Shaped(s)
  {
  }

  lemma DeliverConserves(s: State, server: Server)
    requires Shaped(s) && Conserved(s) && server < |s.conns| && s.flight[server] != []
    ensures Conserved(DeliverStep(s, server))
  {
    hide Total, Mails;
    var q := s.flight[server];
    var rest := Total(s.flight[server := q[1..]]);
    TotalPop(s.flight, server);
    SnocMultiset(s.offline, q[0]);
    assert Mails(s.sent) + (rest + multiset{q[0]}) + multiset(s.offline) == Mails(s.sent) + rest + multiset(s.offline) + multiset{q[0]};
    AddMail(Mails(s.sent) + rest + multiset(s.offline), Mails(s.sent), rest, multiset(s.offline), multiset{q[0]});
    if q[0].to in s.conns[server] {
      MailsSnoc(s.sent, Delivery(s.conns[server][q[0].to], q[0]));
    }
  }

  lemma LoginConserves(s: State, conn: Connection, server: Server, id: int, password: string)
    requires Shaped(s) && Conserved(s) && server < |s.conns|
    ensures Conserved(LoginStep(s, conn, server, id, password))
  {
    RowsSplit(s.offline, id);
    MailsConcat(s.sent, Delivered(conn, RowsOf(s.offline, id)));
    MailsDelivered(conn, RowsOf(s.offline, id));
  }

  lemma StepConserves(s: State, a: Step)
    requires Registry(s) && Conserved(s)
    ensures Conserved(Apply(s, a))
  {
    if Enabled(s, a) {
      match a
      case Connect(_, _) =>
      case Register(_, _, _) =>
      case Login(conn, id, password) => LoginConserves(s, conn, s.open[conn], id, password);
      case Logout(_, _) =>
      case DirectChat(conn, mail) => ChatConserves(s, s.open[conn], mail);
      case Deliver(server) => DeliverConserves(s, server);
      case Close(_, _) =>
    }
  }

  // ----- messages reach their recipients only -----

  /** Whatever was written to a connection was for a user it had logged in as. */
  ghost predicate SentRight(s: State) {
    forall d :: d in s.sent ==> (d.conn, d.mail.to) in s.sessions
  }

  lemma DeliveredTo(conn: Connection, mails: seq<Mail>, d: Delivery)
    requires d in Delivered(conn, mails)
    ensures d.conn == conn && d.mail in mails
  {
    if d != Delivery(conn, mails[0]) {
      DeliveredTo(conn, mails[1..], d);
    }
  }

  lemma LoginSendsRight(s: State, conn: Connection, server: Server, id: int, password: string)
    requires Shaped(s) && SentRight(s) && server < |s.conns|
    ensures SentRight(LoginStep(s, conn, server, id, password))
  {
    var t := LoginStep(s, conn, server, id, password);
    RowsSplit(s.offline, id);
    forall d | d in t.sent ensures (d.conn, d.mail.to) in t.sessions {
      if d !in s.sent {
        DeliveredTo(conn, RowsOf(s.offline, id), d);
      }
    }
  }

  lemma StepSendsRight(s: State, a: Step)
    requires Registry(s) && SentRight(s)
    ensures SentRight(Apply(s, a))
  {
    hide UserRight, KnownOnly, LoginStep;
    if Enabled(s, a) {
      match a
      case Connect(_, _) =>
      case Register(_, _, _) =>
      case Login(conn, id, password) => LoginSendsRight(s, conn, s.open[conn], id, password);
      case Logout(conn, id) => LogoutRest(s, s.open[conn], id);
      case DirectChat(conn, mail) => assert mail.to in s.conns[s.open[conn]] ==> Maps(s, s.open[conn], mail.to);
      case Deliver(server) => assert s.flight[server][0].to in s.conns[server] ==> Maps(s, server, s.flight[server][0].to);
      case Close(conn, pick) => assert NOBODY !in s.accounts by { RowsPositive(s); } CloseRest(s, conn, s.open[conn], pick);
    }
  }

  lemma RowsPositive(s: State)
    requires Registry(s)
    ensures NOBODY !in s.accounts
  {
  }

  // ----- runs -----

  function RunOf(servers: nat, acts: seq<Step>): (r: State)
    ensures Shaped(r)
  {
    if acts == [] then Initial(servers) else Apply(RunOf(servers, acts[..|acts| - 1]), acts[|acts| - 1])
  }

  predicate PoliteRun(servers: nat, acts: seq<Step>) {
    acts == [] || (PoliteRun(servers, acts[..|acts| - 1]) && Polite(RunOf(servers, acts[..|acts| - 1]), acts[|acts| - 1]))
  }

  ghost predicate Inv(s: State) {
    Registry(s) && OneUserEach(s) && Conserved(s) && SentRight(s)
  }

  lemma InitialInv(servers: nat)
    ensures Inv(Initial(servers))
  {
    TotalOfEmpty(Initial(servers).flight);
  }

  /** In every polite run of a cluster of any size: a user is online in the table if and only if
      exactly one server maps it, that server alone subscribes its channel, messages are conserved
      and reach only their recipients. */
  lemma {:induction false} RunsKeepInv(servers: nat, acts: seq<Step>)
    requires PoliteRun(servers, acts)
    ensures Inv(RunOf(servers, acts))
  {
    hide Registry, OneUserEach, Conserved, SentRight, Apply, Polite;
    if acts == [] {
      InitialInv(servers);
    } else {
      var s := RunOf(servers, acts[..|acts| - 1]);
      RunsKeepInv(servers, acts[..|acts| - 1]);
      StepKeepsRegistry(s, acts[|acts| - 1]);
      StepConserves(s, acts[|acts| - 1]);
      StepSendsRight(s, acts[|acts| - 1]);
    }
  }

  /** Spelled out for one user of a run. */
  lemma OnlineIffMappedOnce(servers: nat, acts: seq<Step>, id: int)
    requires PoliteRun(servers, acts) && id in RunOf(servers, acts).accounts
    ensures var s := RunOf(servers, acts);
      && (s.accounts[id].online <==> exists k: Server :: Maps(s, k, id))
      && (forall j: Server, k: Server :: Maps(s, j, id) && Subscribes(s, k, id) ==> j == k)
      && (forall k: Server :: Maps(s, k, id) <==> Subscribes(s, k, id))
  {
    RunsKeepInv(servers, acts);
    assert UserRight(RunOf(servers, acts), id);
  }

  // ----- exactly which runs keep the registry right -----

  /** The two guards of the registry: a logout is handled where the user is mapped or the user is
      offline, and a connection that ends carries at most one user. */
  ghost predicate Safe(s: State, a: Step)
    requires Shaped(s)
  {
    && (a.Logout? && Enabled(s, a) ==> Maps(s, s.open[a.conn], a.id) || !Query(s.accounts, a.id).1.online)
    && (a.Close? && Enabled(s, a) ==> AtMostOneUser(s, a.conn))
  }

  ghost predicate SafeRun(servers: nat, acts: seq<Step>) {
    acts == [] || (SafeRun(servers, acts[..|acts| - 1]) && Safe(RunOf(servers, acts[..|acts| - 1]), acts[|acts| - 1]))
  }

  /** The registry is right after every step of the run. */
  ghost predicate RightThroughout(servers: nat, acts: seq<Step>) {
    Registry(RunOf(servers, acts)) && (acts == [] || RightThroughout(servers, acts[..|acts| - 1]))
  }

  lemma StepRegistryIff(s: State, a: Step)
    requires Registry(s)
    ensures Shaped(s) && (Registry(Apply(s, a)) <==> Safe(s, a))
  {
    RegistryShaped(s);
    hide Registry, AtMostOneUser, LoginStep, LogoutStep, CloseStep, DeliverStep, DirectChatStep, LoginAccepted, Maps;
    if Enabled(s, a) {
      match a
      case Connect(conn, server) => ConnectKeepsRegistry(s, conn, server);
      case Register(name, password, inserted) => RegisterKeepsRegistry(s, name, password, inserted);
      case Login(conn, id, password) => LoginKeepsRegistry(s, conn, id, password);
      case Logout(conn, id) => LogoutKeepsRegistryIff(s, conn, id);
      case DirectChat(conn, mail) =>
        MessagesKeepRegistry(s, DirectChatStep(s, s.open[conn], mail)) by { ChatSameRegistry(s, s.open[conn], mail); }
      case Deliver(server) => MessagesKeepRegistry(s, DeliverStep(s, server)) by { DeliverSameRegistry(s, server); }
      case Close(conn, pick) => CloseKeepsRegistryIff(s, conn, pick);
    }
  }

  lemma MessagesKeepRegistry(s: State, t: State)
    requires Registry(s) && SameRegistry(s, t)
    ensures Registry(t)
  {
    SameRegistryKeeps(s, t);
  }

  lemma ChatSameRegistry(s: State, server: Server, mail: Mail)
    requires Shaped(s) && server < |s.conns|
    ensures SameRegistry(s, DirectChatStep(s, server, mail))
  {
  }

  lemma DeliverSameRegistry(s: State, server: Server)
    requires Shaped(s) && server < |s.conns| && s.flight[server] != []
    ensures SameRegistry(s, DeliverStep(s, server))
  {
  }

  /** For every run whatever: the registry is right throughout exactly when every logout and every
      end of a connection meets its guard. */
  lemma {:induction false} RightThroughoutIff(servers: nat, acts: seq<Step>)
    ensures RightThroughout(servers, acts) <==> SafeRun(servers, acts)
  {
    hide Registry, Apply, Safe;
    if acts == [] {
      InitialInv(servers);
    } else {
      var front := acts[..|acts| - 1];
      RightThroughoutIff(servers, front);
      if RightThroughout(servers, front) {
        StepRegistryIff(RunOf(servers, front), acts[|acts| - 1]);
      }
    }
  }

  lemma RunSnoc(servers: nat, acts: seq<Step>, a: Step)
    ensures RunOf(servers, acts + [a]) == Apply(RunOf(servers, acts), a)
    ensures PoliteRun(servers, acts + [a]) <==> PoliteRun(servers, acts) && Polite(RunOf(servers, acts), a)
  {
    assert (acts + [a])[..|acts|] == acts;
  }

  /** A user logs in on one server; the next step may be that user's logout on another one. */
  function StrayLogin(): seq<Step> {
    [Connect(0, 0)] + [Connect(1, 1)] + [Register("u", "p", true)] + [Login(0, 1, "p")]
  }

  lemma StrayLoginState(servers: nat)
    requires servers >= 2
    ensures var s := RunOf(servers, StrayLogin());
      && PoliteRun(servers, StrayLogin()) && s.open == map[0 := 0, 1 := 1] && |s.conns| == servers
      && s.accounts == map[1 := Account("u", "p", true)] && Maps(s, 0, 1) && !Maps(s, 1, 1)
  {
    var a1, a2, a3, a4 := Connect(0, 0), Connect(1, 1), Register("u", "p", true), Login(0, 1, "p");
    RunSnoc(servers, [], a1);
    assert [] + [a1] == [a1];
    RunSnoc(servers, [a1], a2);
    RunSnoc(servers, [a1] + [a2], a3);
    RunSnoc(servers, [a1] + [a2] + [a3], a4);
    var s3 := RunOf(servers, [a1] + [a2] + [a3]);
    assert s3.accounts == map[1 := Account("u", "p", false)];
  }

  /** Such a logout is reachable by a polite run and leaves the user mapped but offline. */
  lemma StrayLogoutReachable(servers: nat)
    requires servers >= 2
    ensures var s := RunOf(servers, StrayLogin());
      var t := RunOf(servers, StrayLogin() + [Logout(1, 1)]);
      && PoliteRun(servers, StrayLogin()) && Registry(s) && Enabled(s, Logout(1, 1))
      && !Polite(s, Logout(1, 1)) && !Registry(t)
      && 1 in t.accounts && !t.accounts[1].online && Maps(t, 0, 1)
  {
    hide RunOf, Registry, StrayLogin;
    var s := RunOf(servers, StrayLogin());
    StrayLoginState(servers);
    RunSnoc(servers, StrayLogin(), Logout(1, 1));
    RunsKeepInv(servers, StrayLogin());
    LogoutKeepsRegistryIff(s, 1, 1);
    LogoutEffect(s, 1, 1);
    LogoutRest(s, 1, 1);
  }

  /** Two users log in over one connection. */
  function SharedLogin(): seq<Step> {
    [Connect(0, 0)] + [Register("u", "p", true)] + [Register("v", "q", true)] + [Login(0, 1, "p")] + [Login(0, 2, "q")]
  }

  lemma TwoRegistered(servers: nat)
    requires servers >= 1
    ensures var s := RunOf(servers, [Connect(0, 0)] + [Register("u", "p", true)] + [Register("v", "q", true)]);
      && PoliteRun(servers, [Connect(0, 0)] + [Register("u", "p", true)] + [Register("v", "q", true)])
      && s.open == map[0 := 0] && |s.conns| == servers && s.conns[0] == map[]
      && s.accounts == map[1 := Account("u", "p", false), 2 := Account("v", "q", false)]
  {
    var a1, a2, a3 := Connect(0, 0), Register("u", "p", true), Register("v", "q", true);
    RunSnoc(servers, [], a1);
    assert [] + [a1] == [a1];
    RunSnoc(servers, [a1], a2);
    RunSnoc(servers, [a1] + [a2], a3);
  }

  lemma SharedLoginState(servers: nat)
    requires servers >= 1
    ensures var s := RunOf(servers, SharedLogin());
      Registry(s) && s.open == map[0 := 0] && |s.conns| == servers && s.conns[0] == map[1 := 0, 2 := 0]
  {
    hide RunOf, Registry;
    var acts := [Connect(0, 0)] + [Register("u", "p", true)] + [Register("v", "q", true)];
    TwoRegistered(servers);
    RunSnoc(servers, acts, Login(0, 1, "p"));
    RunsKeepInv(servers, acts);
    LoginKeepsRegistry(RunOf(servers, acts), 0, 1, "p");
    RunSnoc(servers, acts + [Login(0, 1, "p")], Login(0, 2, "q"));
    LoginKeepsRegistry(RunOf(servers, acts + [Login(0, 1, "p")]), 0, 2, "q");
  }

  /** Such a connection is reachable, and its end leaves one of the two mapped to nothing. */
  lemma SharedConnectionReachable(servers: nat)
    requires servers >= 1
    ensures var s := RunOf(servers, SharedLogin());
      var t := RunOf(servers, SharedLogin() + [Close(0, 1)]);
      && Registry(s) && Enabled(s, Close(0, 1)) && !AtMostOneUser(s, 0) && !Registry(t)
      && Maps(t, 0, 2) && t.conns[0][2] !in t.open
  {
    hide RunOf, Registry, SharedLogin;
    var s := RunOf(servers, SharedLogin());
    SharedLoginState(servers);
    RunSnoc(servers, SharedLogin(), Close(0, 1));
    assert s.conns[0][1] == 0;
    assert Maps(s, 0, 1) && Maps(s, 0, 2);
    CloseKeepsRegistryIff(s, 0, 1);
  }

  // ----- where a message goes -----

  /** A direct message goes to exactly one place: at once to the recipient's connection if the
      sender's server maps the recipient, else to the one server that maps an online recipient, else
      to the offline store. */
  lemma MessagePlace(s: State, conn: Connection, mail: Mail)
    requires Inv(s) && conn in s.open
    ensures Shaped(s)
    ensures var t := Apply(s, DirectChat(conn, mail));
      && t.issued == s.issued + [mail]
      && if Maps(s, s.open[conn], mail.to) then
           && s.conns[s.open[conn]][mail.to] in s.open
           && t.sent == s.sent + [Delivery(s.conns[s.open[conn]][mail.to], mail)]
           && t.flight == s.flight && t.offline == s.offline
         else if mail.to in s.accounts && s.accounts[mail.to].online then
           && t.sent == s.sent && t.offline == s.offline
           && exists k: Server :: Maps(s, k, mail.to) && k < |s.flight| && t.flight == s.flight[k := s.flight[k] + [mail]]
         else t.sent == s.sent && t.flight == s.flight && t.offline == s.offline + [mail]
  {
    RegistryShaped(s);
    if !Maps(s, s.open[conn], mail.to) && mail.to in s.accounts && s.accounts[mail.to].online {
      var k := PublishOnce(s, mail);
    }
  }

  /** A message from the broker is written to the recipient if its server still maps the recipient,
      and stored otherwise. */
  lemma BrokerMessagePlace(s: State, k: Server)
    requires Shaped(s) && k < |s.conns| && s.flight[k] != []
    ensures var t := Apply(s, Deliver(k));
      var mail := s.flight[k][0];
      && t.flight == s.flight[k := s.flight[k][1..]]
      && if Maps(s, k, mail.to) then t.sent == s.sent + [Delivery(s.conns[k][mail.to], mail)] && t.offline == s.offline
         else t.sent == s.sent && t.offline == s.offline + [mail]
  {
  }

  function RunFrom(s: State, acts: seq<Step>): (t: State)
    requires Shaped(s)
    ensures Shaped(t)
  {
    if acts == [] then s else Apply(RunFrom(s, acts[..|acts| - 1]), acts[|acts| - 1])
  }

  /** The step is an accepted login of the user. */
  predicate LogsIn(s: State, a: Step, id: int) {
    a.Login? && a.id == id && a.conn in s.open && LoginAccepted(s, id, a.password)
  }

  predicate NeverLogsIn(s: State, acts: seq<Step>, id: int)
    requires Shaped(s)
  {
    acts == [] || (NeverLogsIn(s, acts[..|acts| - 1], id) && !LogsIn(RunFrom(s, acts[..|acts| - 1]), acts[|acts| - 1], id))
  }

  lemma RowsKept(rows: seq<Mail>, id: int, mail: Mail)
    requires mail in rows
    ensures mail.to == id ==> mail in RowsOf(rows, id)
    ensures mail.to != id ==> mail in RowsWithout(rows, id)
  {
    if rows[0] != mail {
      RowsKept(rows[1..], id, mail);
    }
  }

  lemma AllDelivered(conn: Connection, mails: seq<Mail>, mail: Mail)
    requires mail in mails
    ensures Delivery(conn, mail) in Delivered(conn, mails)
  {
    if mails[0] != mail {
      AllDelivered(conn, mails[1..], mail);
    }
  }

  lemma StepKeepsStored(s: State, a: Step, mail: Mail)
    requires Shaped(s) && mail in s.offline && !LogsIn(s, a, mail.to)
    ensures mail in Apply(s, a).offline
  {
    hide RowsOf, RowsWithout, Delivered, Published;
    if Enabled(s, a) && a.Login? {
      RowsKept(s.offline, a.id, mail);
    }
  }

  lemma LoginWritesStored(s: State, a: Step, mail: Mail)
    requires Shaped(s) && mail in s.offline && LogsIn(s, a, mail.to)
    ensures Delivery(a.conn, mail) in Apply(s, a).sent
  {
    hide RowsWithout;
    RowsKept(s.offline, mail.to, mail);
    AllDelivered(a.conn, RowsOf(s.offline, mail.to), mail);
  }

  lemma {:induction false} StoredUntilLogin(s: State, acts: seq<Step>, mail: Mail)
    requires Shaped(s) && mail in s.offline && NeverLogsIn(s, acts, mail.to)
    ensures mail in RunFrom(s, acts).offline
  {
    hide Apply, LogsIn;
    if acts != [] {
      StoredUntilLogin(s, acts[..|acts| - 1], mail);
      StepKeepsStored(RunFrom(s, acts[..|acts| - 1]), acts[|acts| - 1], mail);
    }
  }

  /** A message to a user who is offline waits in the store, whatever happens, and the user's next
      accepted login writes it to the connection that logs in. */
  lemma OfflineMessageArrives(s: State, conn: Connection, mail: Mail, acts: seq<Step>, login: Step)
    requires Inv(s) && conn in s.open && mail.to in s.accounts && !s.accounts[mail.to].online
    requires Shaped(s) && NeverLogsIn(Apply(s, DirectChat(conn, mail)), acts, mail.to)
    requires LogsIn(RunFrom(Apply(s, DirectChat(conn, mail)), acts), login, mail.to)
    ensures var t := RunFrom(Apply(s, DirectChat(conn, mail)), acts);
      mail in t.offline && Delivery(login.conn, mail) in Apply(t, login).sent
  {
    hide RunFrom, NeverLogsIn;
    var c := Apply(s, DirectChat(conn, mail));
    assert UserRight(s, mail.to);
    MessagePlace(s, conn, mail);
    StoredUntilLogin(c, acts, mail);
    LoginWritesStored(RunFrom(c, acts), login, mail);
  }

  /** A new user can log in with the registered password and no other. */
  lemma RegisteredCanLogin(s: State, name: string, password: string, conn: Connection, tried: string)
    requires Inv(s) && conn in s.open
    ensures Shaped(s)
    ensures var t := Apply(s, Register(name, password, true));
      && s.nextId !in s.accounts && t.accounts == s.accounts[s.nextId := Account(name, password, false)]
      && (LogsIn(t, Login(conn, s.nextId, tried), s.nextId) <==> tried == password)
      && Apply(s, Register(name, password, false)) == s
  {
    RegistryShaped(s);
  }

  /** What the accepted login of a user does: the user is mapped to the connection, subscribed and
      online. */
  lemma LoginDoes(s: State, conn: Connection, id: int, password: string)
    requires Inv(s) && LogsIn(s, Login(conn, id, password), id) && id in s.accounts
    ensures Shaped(s)
    ensures var t := Apply(s, Login(conn, id, password));
      && Maps(t, s.open[conn], id) && t.conns[s.open[conn]][id] == conn && Subscribes(t, s.open[conn], id)
      && t.accounts == s.accounts[id := s.accounts[id].(online := true)]
  {
    RegistryShaped(s);
    assert UserRight(s, id);
    assert !Maps(s, s.open[conn], id);
    LoginEffect(s, conn, s.open[conn], id, password);
  }

  /** `n` deliveries of the broker to server `k`. */
  function Drain(s: State, k: Server, n: nat): (r: State)
    requires Shaped(s)
    ensures Shaped(r)
  {
    if n == 0 then s else Apply(Drain(s, k, n - 1), Deliver(k))
  }

  lemma DeliverPops(s: State, k: Server)
    requires Shaped(s) && k < |s.conns| && s.flight[k] != []
    ensures var t := Apply(s, Deliver(k));
      t.conns == s.conns && |t.flight| == |s.flight| && t.flight[k] == s.flight[k][1..]
  {
  }

  lemma {:induction false} DrainLeaves(s: State, k: Server, n: nat)
    requires Shaped(s) && k < |s.conns| && n <= |s.flight[k]|
    ensures var t := Drain(s, k, n);
      t.conns == s.conns && |t.flight| == |s.flight| && t.flight[k] == s.flight[k][n..]
  {
    hide Apply;
    if n > 0 {
      DrainLeaves(s, k, n - 1);
      DeliverPops(Drain(s, k, n - 1), k);
    }
  }

  /** A message to a user of another server is the next one written to that user's connection once
      the broker has delivered what it already holds for that server. */
  lemma CrossServerDelivery(s: State, conn: Connection, mail: Mail, k: Server)
    requires Inv(s) && conn in s.open && Maps(s, k, mail.to) && mail.to in s.accounts && k != s.open[conn]
    ensures Shaped(s) && k < |s.flight|
    ensures var t := Drain(Apply(s, DirectChat(conn, mail)), k, |s.flight[k]|);
      Apply(t, Deliver(k)).sent == t.sent + [Delivery(s.conns[k][mail.to], mail)] && Apply(t, Deliver(k)).flight[k] == []
  {
    assert UserRight(s, mail.to);
    assert !Maps(s, s.open[conn], mail.to);
    var j := PublishOnce(s, mail);
    assert j == k;
    DrainLeaves(Apply(s, DirectChat(conn, mail)), k, |s.flight[k]|);
  }

  lemma StepKeepsInv(s: State, a: Step)
    requires Inv(s) && Polite(s, a)
    ensures Inv(Apply(s, a))
  {
    hide Registry, OneUserEach, Conserved, SentRight, Apply, Polite;
    StepKeepsRegistry(s, a);
    StepConserves(s, a);
    StepSendsRight(s, a);
  }

  /** With the other parts of the invariant in place, a logout keeps it exactly when polite. */
  lemma LogoutKeepsInvIff(s: State, conn: Connection, id: int)
    requires Inv(s) && conn in s.open
    ensures Inv(Apply(s, Logout(conn, id))) <==> Polite(s, Logout(conn, id))
  {
    hide Registry, OneUserEach, Conserved, SentRight, LogoutStep;
    LogoutKeepsRegistryIff(s, conn, id);
    RegistryShaped(s);
    if Polite(s, Logout(conn, id)) {
      StepKeepsInv(s, Logout(conn, id));
    }
  }

  lemma LoginKeepsInvIff(s: State, conn: Connection, id: int, password: string)
    requires Inv(s) && conn in s.open
    ensures Inv(Apply(s, Login(conn, id, password))) <==> Polite(s, Login(conn, id, password))
  {
    hide Registry, OneUserEach, Conserved, SentRight, LoginStep, LoginAccepted;
    LoginKeepsOneUserIff(s, conn, id, password);
    RegistryShaped(s);
    if Polite(s, Login(conn, id, password)) {
      StepKeepsInv(s, Login(conn, id, password));
    }
  }

  // ----- the class -----

  lemma Regroup(a: seq<Mail>, b: seq<Mail>, c: seq<Mail>)
    ensures a + (b + c) == (a + b) + c
  {
  }

  lemma RowsOfSnoc(rows: seq<Mail>, m: Mail, id: int)
    ensures RowsOf(rows + [m], id) == RowsOf(rows, id) + if m.to == id then [m] else []
  {
    if rows == [] {
      assert [m][1..] == [];
    } else {
      assert (rows + [m])[1..] == rows[1..] + [m];
      RowsOfSnoc(rows[1..], m, id);
      Regroup(if rows[0].to == id then [rows[0]] else [], RowsOf(rows[1..], id), if m.to == id then [m] else []);
    }
  }

  lemma DeliveredSnoc(conn: Connection, mails: seq<Mail>, m: Mail)
    ensures Delivered(conn, mails + [m]) == Delivered(conn, mails) + [Delivery(conn, m)]
  {
    if mails == [] {
      assert [m][1..] == [];
    } else {
      assert (mails + [m])[1..] == mails[1..] + [m];
      DeliveredSnoc(conn, mails[1..], m);
    }
  }

  /** The servers of the cluster with what they share. */
  class Cluster {
    var userConnMaps: seq<map<int, Connection>>
    var channels: seq<set<int>>
    var inFlight: seq<seq<Mail>>
    var userTable: map<int, Account>
    var autoIncrement: int
    var offlineMessages: seq<Mail>
    var openConnections: map<Connection, Server>
    var written: seq<Delivery>
    ghost var issued: seq<Mail>
    ghost var sessions: set<(Connection, int)>

    ghost function View(): State
      reads this
    {
      State(userConnMaps, channels, inFlight, userTable, autoIncrement, offlineMessages, openConnections, issued, written, sessions)
    }

    ghost predicate Valid()
      reads this
    {
      Inv(View())
    }

    constructor (servers: nat)
      ensures Valid() && View() == Initial(servers)
    {
      userConnMaps, channels, inFlight := seq(servers, _ => map[]), seq(servers, _ => {}), seq(servers, _ => []);
      userTable, autoIncrement, offlineMessages, openConnections, written := map[], 1, [], map[], [];
      issued, sessions := [], {};
      new;
      InitialInv(servers);
    }

    method OnConnection(conn: Connection, server: Server)
      requires Valid() && conn !in openConnections && server < |userConnMaps|
      modifies this
      ensures Valid() && View() == Apply(old(View()), Connect(conn, server))
    {
      hide Registry, OneUserEach, Conserved, SentRight;
      StepKeepsInv(View(), Connect(conn, server));
      openConnections := openConnections[conn := server];
    }

    /** `inserted` is the answer of the database. */
    method HandlerRegister(name: string, password: string, inserted: bool) returns (errno: int, id: int)
      requires Valid()
      modifies this
      ensures Valid() && View() == Apply(old(View()), Register(name, password, inserted))
      ensures errno == 0 <==> inserted
      ensures inserted ==> id !in old(userTable) && id in userTable
    {
      hide OneUserEach, Conserved, SentRight;
      StepKeepsInv(View(), Register(name, password, inserted));
      if inserted {
        id := autoIncrement;
        userTable := userTable[id := Account(name, password, false)];
        autoIncrement := autoIncrement + 1;
        errno := 0;
      } else {
        errno, id := 1, NOBODY;
      }
    }

    method UpdateUserState(id: int, online: bool)
      modifies this`userTable
      ensures View() == UpdateState(old(View()), id, online)
    {
      if id in userTable {
        userTable := userTable[id := userTable[id].(online := online)];
      }
    }

    method QueryOfflineMessages(id: int) returns (rows: seq<Mail>)
      ensures rows == RowsOf(offlineMessages, id)
    {
      rows := [];
      var i := 0;
      while i < |offlineMessages|
        invariant 0 <= i <= |offlineMessages| && rows == RowsOf(offlineMessages[..i], id)
      {
        assert offlineMessages[..i + 1] == offlineMessages[..i] + [offlineMessages[i]];
        RowsOfSnoc(offlineMessages[..i], offlineMessages[i], id);
        if offlineMessages[i].to == id {
          rows := rows + [offlineMessages[i]];
        }
        i := i + 1;
      }
      assert offlineMessages[..i] == offlineMessages;
    }

    /** The reply carries the offline messages. */
    method Reply(conn: Connection, mails: seq<Mail>)
      modifies this`written
      ensures written == old(written) + Delivered(conn, mails)
    {
      var i := 0;
      while i < |mails|
        invariant 0 <= i <= |mails| && written == old(written) + Delivered(conn, mails[..i])
      {
        assert mails[..i + 1] == mails[..i] + [mails[i]];
        DeliveredSnoc(conn, mails[..i], mails[i]);
        written := written + [Delivery(conn, mails[i])];
        i := i + 1;
      }
      assert mails[..i] == mails;
    }

    /** The registry stays right exactly when the login is refused, maps nothing new, or comes from
        a connection without a user. */
    method HandlerLogin(conn: Connection, id: int, password: string) returns (errno: int, offlinemsg: seq<Mail>)
      requires Valid() && conn in openConnections
      modifies this
      ensures View() == Apply(old(View()), Login(conn, id, password))
      ensures Valid() <==> Polite(old(View()), Login(conn, id, password))
      ensures errno == 0 <==> LoginAccepted(old(View()), id, password)
      ensures errno == 2 <==> id in old(userTable) && old(userTable)[id].password == password && old(userTable)[id].online
      ensures offlinemsg == if errno == 0 then RowsOf(old(offlineMessages), id) else []
    {
      hide Registry, OneUserEach, Conserved, SentRight;
      LoginKeepsInvIff(View(), conn, id, password);
      RegistryShaped(View());
      var server := openConnections[conn];
      offlinemsg := [];
      var (userId, user) := Query(userTable, id);
      if userId == id && user.password == password {
        if user.online {
          errno := 2;
        } else {
          userConnMaps := userConnMaps[server := Inserted(userConnMaps[server], id, conn)];
          channels := channels[server := channels[server] + {id}];
          UpdateUserState(id, true);
          errno := 0;
          offlinemsg := QueryOfflineMessages(id);
          if offlinemsg != [] {
            offlineMessages := RowsWithout(offlineMessages, id);
          } else {
            NoRows(offlineMessages, id);
          }
          Reply(conn, offlinemsg);
          sessions := sessions + {(conn, id)};
        }
      } else {
        errno := 1;
      }
    }

    /** The registry stays right exactly when this server maps the user, or the user was offline. */
    method HandlerLogout(conn: Connection, id: int)
      requires Valid() && conn in openConnections
      modifies this
      ensures View() == Apply(old(View()), Logout(conn, id))
      ensures Valid() <==> Polite(old(View()), Logout(conn, id))
    {
      hide Registry, OneUserEach, Conserved, SentRight;
      LogoutKeepsInvIff(View(), conn, id);
      RegistryShaped(View());
      var server := openConnections[conn];
      if id in userConnMaps[server] {
        userConnMaps := userConnMaps[server := userConnMaps[server] - {id}];
      } else {
        assert userConnMaps[server] - {id} == userConnMaps[server];
        assert userConnMaps[server := userConnMaps[server]] == userConnMaps;
      }
      channels := channels[server := channels[server] - {id}];
      UpdateUserState(id, false);
    }

    method Publish(mail: Mail)
      requires |channels| == |inFlight|
      modifies this`inFlight
      ensures |inFlight| == |old(inFlight)| && inFlight == Published(old(inFlight), channels, mail)
    {
      var k := 0;
      while k < |inFlight|
        invariant 0 <= k <= |inFlight| == |old(inFlight)|
        invariant forall j :: 0 <= j < k ==> inFlight[j] == Published(old(inFlight), channels, mail)[j]
        invariant forall j :: k <= j < |inFlight| ==> inFlight[j] == old(inFlight)[j]
      {
        if mail.to in channels[k] {
          inFlight := inFlight[k := inFlight[k] + [mail]];
        }
        k := k + 1;
      }
    }

    method HandlerDirectChat(conn: Connection, mail: Mail)
      requires Valid() && conn in openConnections
      modifies this
      ensures Valid() && View() == Apply(old(View()), DirectChat(conn, mail))
    {
      hide Registry, OneUserEach, Conserved, SentRight;
      StepKeepsInv(View(), DirectChat(conn, mail));
      RegistryShaped(View());
      var server := openConnections[conn];
      issued := issued + [mail];
      if mail.to in userConnMaps[server] {
        written := written + [Delivery(userConnMaps[server][mail.to], mail)];
        return;
      }
      if Query(userTable, mail.to).1.online {
        Publish(mail);
        return;
      }
      offlineMessages := offlineMessages + [mail];
    }

    /** Handles the oldest message the broker holds for this server. */
    method HandlerRedisSubscribeMessage(server: Server)
      requires Valid() && server < |userConnMaps| == |inFlight| && inFlight[server] != []
      modifies this
      ensures Valid() && View() == Apply(old(View()), Deliver(server))
    {
      hide Registry, OneUserEach, Conserved, SentRight;
      StepKeepsInv(View(), Deliver(server));
      RegistryShaped(View());
      var mail := inFlight[server][0];
      inFlight := inFlight[server := inFlight[server][1..]];
      if mail.to in userConnMaps[server] {
        written := written + [Delivery(userConnMaps[server][mail.to], mail)];
        return;
      }
      offlineMessages := offlineMessages + [mail];
    }

    /** Searches the map in its iteration order. */
    method FindUser(m: map<int, Connection>, order: seq<int>, conn: Connection) returns (pick: int, found: bool)
      requires (forall j :: 0 <= j < |order| ==> order[j] in m) && forall i :: i in m ==> i in order
      ensures found <==> Carries(m, conn)
      ensures found ==> pick in m && m[pick] == conn
      ensures !found ==> pick == NOBODY
    {
      pick, found := NOBODY, false;
      var k := 0;
      while k < |order|
        invariant 0 <= k <= |order| && forall j :: 0 <= j < k ==> m[order[j]] != conn
      {
        if m[order[k]] == conn {
          pick, found := order[k], true;
          return;
        }
        k := k + 1;
      }
    }

    /** `order` is the order in which the map of the connection's server is iterated. */
    method ClientCloseException(conn: Connection, order: seq<int>) returns (pick: int)
      requires Valid() && conn in openConnections && openConnections[conn] < |userConnMaps|
      requires forall j :: 0 <= j < |order| ==> order[j] in userConnMaps[openConnections[conn]]
      requires forall i :: i in userConnMaps[openConnections[conn]] ==> i in order
      modifies this
      ensures Valid() && View() == Apply(old(View()), Close(conn, pick))
      ensures Found(old(View()), conn, old(openConnections)[conn], pick)
    {
      hide Registry, OneUserEach, Conserved, SentRight;
      RegistryShaped(View());
      var server := openConnections[conn];
      var found: bool;
      pick, found := FindUser(userConnMaps[server], order, conn);
      StepKeepsInv(View(), Close(conn, pick));
      if found {
        userConnMaps := userConnMaps[server := userConnMaps[server] - {pick}];
      }
      channels := channels[server := channels[server] - {pick}];
      if pick != NOBODY {
        UpdateUserState(pick, false);
      }
      openConnections := openConnections - {conn};
    }
  }

  lemma NoRows(rows: seq<Mail>, id: int)
    requires RowsOf(rows, id) == []
    ensures RowsWithout(rows, id) == rows
  {
  }
}
