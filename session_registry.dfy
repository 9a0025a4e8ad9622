/**
 * The process-wide session registry (`activeBots`) and everything that
 * changes it: `startBot`, the `connection.update` callback each socket
 * installs, and the `/api/sessions` control handlers.
 *
 * Each socket is an id; the state its `connection.update` closure captures
 * (the session name, whether it pairs by QR code, and the
 * `initialConnection` flag) is kept per id.  The session directories and
 * the `creds.json` file inside them are an abstract file system.  Foreign
 * calls are inputs: what a token address returned, whether the protocol
 * client came up, and the base64 decoder.
 */
module SessionRegistry {
  import opened Wrappers
  import opened JsString
  import JsMap
  import SessionToken

  type Bytes = seq<bv8>
  type SocketId = nat

  /** The `status` strings the source writes into an entry. */
  datatype Status = Initializing | WaitingForScan | Connected

  function StatusText(s: Status): Str {
    match s
    case Initializing => "initializing"
    case WaitingForScan => "waiting_for_scan"
    case Connected => "connected"
  }

  /** One `activeBots` entry: `{status, jid?, qrCode?, sock?}`. */
  datatype BotInfo = BotInfo(status: Status, jid: Option<Str>, qrCode: Option<Str>, sock: Option<SocketId>)

  /** JavaScript truthiness of an optional string. */
  predicate Truthy(o: Option<Str>) {
    o.Some? && o.value != ""
  }

  /** What one socket's `connection.update` closure captured. */
  datatype Socket = Socket(name: Str, useQR: bool, initialConnection: bool)

  /** The `connection` field of an update; `Pending` stands for any other value or none. */
  datatype Connection = Close(loggedOut: bool) | Open(jid: Str) | Pending

  /** One `connection.update` event; `qr` is "" when the update carries no QR code. */
  datatype Update = Update(connection: Connection, qr: Str)

  /** One element of the `GET /api/sessions` answer. */
  datatype SessionView = SessionView(name: Str, status: Str, jid: Option<Str>, qrAvailable: bool)

  /** An HTTP answer: the status code and the QR code it carries, if any. */
  datatype Reply = Reply(code: nat, qrCode: Option<Str>)

  /** `POST /api/sessions` either answers at once or, in QR mode, waits for the socket's first events. */
  datatype CreateReply = Done(reply: Reply) | AwaitingQr(started: bool)

  type Registry = JsMap.Map<Str, BotInfo>

  const SessionCreatedNoQr := Reply(200, None)
  const BadRequest := Reply(400, None)
  const NotFound := Reply(404, None)
  const Failed := Reply(500, None)

  /** The entry for `QR`-mode creation before the socket exists. */
  const Placeholder := BotInfo(Initializing, None, None, None)

  /** `if (sessionId)`: a token was supplied. */
  predicate TokenGiven(sessionId: Option<Str>) {
    sessionId.Some? && sessionId.value != ""
  }

  /** The payload `downloadSessionData` writes for this call of `startBot`, if it writes one. */
  function Downloaded(sessionId: Option<Str>, fetched: Option<Str>): (p: Option<Str>)
    ensures p.Some? <==> TokenGiven(sessionId) && SessionToken.Import(sessionId.value, fetched).Payload?
    ensures p.Some? ==> p.value == SessionToken.Import(sessionId.value, fetched).base64
  {
    if TokenGiven(sessionId) then
      match SessionToken.Import(sessionId.value, fetched)
      case Payload(b) => Some(b)
      case _ => None
    else None
  }

  /**
   * What an entry always satisfies: its socket is one of this session's
   * sockets, a QR code is held exactly while the entry waits for a scan, a
   * placeholder has neither socket nor identity, and a connected entry has both.
   */
  ghost predicate EntryOk(name: Str, b: BotInfo, sockets: map<SocketId, Socket>) {
    (b.sock.Some? ==> b.sock.value in sockets && sockets[b.sock.value].name == name)
    && (Truthy(b.qrCode) <==> b.status == WaitingForScan)
    && (b.status == Initializing ==> b.sock.None? && b.jid.None?)
    && (b.status == Connected ==> b.jid.Some? && b.sock.Some?)
  }

  /** Every entry of the registry satisfies `EntryOk` over these sockets. */
  ghost predicate AllOk(bots: Registry, sockets: map<SocketId, Socket>) {
    forall n :: n in bots.entries ==> EntryOk(n, bots.entries[n], sockets)
  }

  /** Sockets that are added, or updated without changing their session name, keep every entry valid. */
  lemma SocketsGrowOk(bots: Registry, sockets: map<SocketId, Socket>, sockets': map<SocketId, Socket>)
    requires AllOk(bots, sockets)
    requires forall id :: id in sockets ==> id in sockets' && sockets'[id].name == sockets[id].name
    ensures AllOk(bots, sockets')
  {
  }

  /** The `connection` half of the callback keeps every entry valid. */
  lemma ConnectionOk(bots: Registry, sock: SocketId, s: Socket, c: Connection, sockets: map<SocketId, Socket>)
    requires bots.Valid() && AllOk(bots, sockets)
    requires sock in sockets && sockets[sock].name == s.name
    ensures AllOk(AfterConnection(bots, sock, s, c), sockets)
  {
  }

  /** The QR half of the callback keeps every entry valid. */
  lemma QrOk(bots: Registry, sock: SocketId, s: Socket, qr: Str, sockets: map<SocketId, Socket>)
    requires bots.Valid() && AllOk(bots, sockets)
    requires sock in sockets && sockets[sock].name == s.name
    ensures AllOk(AfterQr(bots, sock, s, qr), sockets)
  {
  }

  /**
   * The `connection` half of the callback: a logged-out close removes the
   * session, the socket's first `open` replaces the entry by a connected one
   * without QR code, and every other connection value leaves the registry
   * as it is (a close that is not a logout restarts the session instead).
   */
  function AfterConnection(bots: Registry, sock: SocketId, s: Socket, c: Connection): (r: Registry)
    requires bots.Valid()
    ensures r.Valid()
    ensures forall n :: n != s.name ==> (n in r.entries <==> n in bots.entries)
    ensures forall n :: n != s.name && n in r.entries ==> r.entries[n] == bots.entries[n]
    ensures c == Close(true) ==> s.name !in r.entries && r.keys == JsMap.Without(bots.keys, s.name)
    ensures c.Open? && s.initialConnection ==>
      s.name in r.entries && r.entries[s.name] == BotInfo(Connected, Some(c.jid), None, Some(sock))
    ensures c.Open? && s.initialConnection ==>
      r.keys == if s.name in bots.entries then bots.keys else bots.keys + [s.name]
    ensures c != Close(true) && !(c.Open? && s.initialConnection) ==> r == bots
  {
    match c
    case Close(loggedOut) => if loggedOut then bots.Delete(s.name) else bots
    case Open(jid) =>
      if s.initialConnection then bots.Set(s.name, BotInfo(Connected, Some(jid), None, Some(sock))) else bots
    case Pending => bots
  }

  /**
   * The QR half of the callback: with a QR code and QR pairing the entry is
   * put in `waiting_for_scan` with that code, keeping its other fields, or
   * created with this socket if it is missing; otherwise nothing changes.
   */
  function AfterQr(bots: Registry, sock: SocketId, s: Socket, qr: Str): (r: Registry)
    requires bots.Valid()
    ensures r.Valid()
    ensures forall n :: n != s.name ==> (n in r.entries <==> n in bots.entries)
    ensures forall n :: n != s.name && n in r.entries ==> r.entries[n] == bots.entries[n]
    ensures !(qr != "" && s.useQR) ==> r == bots
    ensures qr != "" && s.useQR ==>
      s.name in r.entries && r.entries[s.name].status == WaitingForScan && r.entries[s.name].qrCode == Some(qr)
    ensures qr != "" && s.useQR && s.name in bots.entries ==>
      r.entries[s.name].jid == bots.entries[s.name].jid && r.entries[s.name].sock == bots.entries[s.name].sock
      && r.keys == bots.keys
    ensures qr != "" && s.useQR && s.name !in bots.entries ==>
      r.entries[s.name] == BotInfo(WaitingForScan, None, Some(qr), Some(sock)) && r.keys == bots.keys + [s.name]
  {
    if qr != "" && s.useQR then
      if bots.Has(s.name) then
        var b := bots.entries[s.name];
        bots.Set(s.name, b.(qrCode := Some(qr), status := WaitingForScan))
      else bots.Set(s.name, BotInfo(WaitingForScan, None, Some(qr), Some(sock)))
    else bots
  }

  /**
   * QR pairing as the registry sees it: the placeholder gets the QR code,
   * the socket's first `open` turns it into a connected entry without QR
   * code at the same position, and a later `open` changes nothing.
   */
  lemma PairingThenOpen(bots: Registry, name: Str, sock: SocketId, qr: Str, jid: Str)
    requires bots.Valid() && name in bots.entries && bots.entries[name] == Placeholder && qr != ""
    ensures var s := Socket(name, true, true);
      var waiting := AfterQr(AfterConnection(bots, sock, s, Pending), sock, s, qr);
      var connected := AfterQr(AfterConnection(waiting, sock, s, Open(jid)), sock, s, "");
      waiting.entries[name] == BotInfo(WaitingForScan, None, Some(qr), None)
      && connected.entries[name] == BotInfo(Connected, Some(jid), None, Some(sock))
      && connected.keys == bots.keys
      && AfterQr(AfterConnection(connected, sock, s.(initialConnection := false), Open(jid)), sock, s, "") == connected
  {
    var s := Socket(name, true, true);
    var waiting := AfterQr(AfterConnection(bots, sock, s, Pending), sock, s, qr);
    assert waiting.keys == bots.keys;
    assert name in waiting.entries;
  }

  class SessionManager {
    /** `activeBots` */
    var activeBots: Registry
    /** The session directories under the sessions root. */
    var dirs: set<Str>
    /** The `creds.json` content of the directories that have one. */
    var creds: map<Str, Bytes>
    /** Every socket `startBot` created, with its callback's captured state. */
    var sockets: map<SocketId, Socket>
    /** The id the next socket gets. */
    var nextSocket: SocketId

    ghost predicate Valid()
      reads this
    {
      activeBots.Valid()
      && creds.Keys <= dirs
      && (forall id :: id in sockets ==> id < nextSocket)
      && AllOk(activeBots, sockets)
    }

    /** The process starts with an empty registry over whatever session directories exist. */
    constructor (dirs0: set<Str>, creds0: map<Str, Bytes>)
      requires creds0.Keys <= dirs0
      ensures Valid()
      ensures activeBots == JsMap.Empty() && dirs == dirs0 && creds == creds0 && sockets == map[]
    {
      activeBots := JsMap.Empty();
      dirs := dirs0;
      creds := creds0;
      sockets := map[];
      nextSocket := 0;
    }

    /**
     * `startBot(name, sessionId, useQR)`: make the directory, import the
     * token if one is given, and bring up a socket.  A token that cannot be
     * imported ends the attempt before any socket exists unless QR pairing
     * is allowed; `clientOk` is whether the protocol client came up.  The
     * registry itself is never touched here.
     */
    method StartBot(name: Str, sessionId: Option<Str>, useQR: bool, fetched: Option<Str>,
                    decode: Str -> Bytes, clientOk: bool) returns (ok: bool)
      requires Valid()
      modifies this
      ensures Valid()
      ensures activeBots == old(activeBots)
      ensures dirs == old(dirs) + {name}
      ensures creds == match Downloaded(sessionId, fetched)
                       case Some(p) => old(creds)[name := decode(p)]
                       case None => old(creds)
      ensures ok == (clientOk && !(TokenGiven(sessionId) && Downloaded(sessionId, fetched).None? && !useQR))
      ensures ok ==> sockets == old(sockets)[old(nextSocket) := Socket(name, useQR, true)]
                     && nextSocket == old(nextSocket) + 1
      ensures !ok ==> sockets == old(sockets) && nextSocket == old(nextSocket)
    {
      dirs := dirs + {name};
      if TokenGiven(sessionId) {
        var downloaded := Downloaded(sessionId, fetched);
        if downloaded.Some? {
          creds := creds[name := decode(downloaded.value)];
        }
        if downloaded.None? && !useQR {
          return false;
        }
      }
      if !clientOk {
        return false;
      }
      ghost var sockets0 := sockets;
      sockets := sockets[nextSocket := Socket(name, useQR, true)];
      nextSocket := nextSocket + 1;
      SocketsGrowOk(activeBots, sockets0, sockets);
      ok := true;
    }

    /**
     * The `connection.update` callback of socket `sock`.  A close that is not
     * a logout restarts the same session with `startBot(name)` (no token, no
     * QR pairing; `restartOk` is whether its client comes up).  The first
     * `open` of a socket clears its `initialConnection` flag.
     */
    method OnConnectionUpdate(sock: SocketId, u: Update, restartOk: bool)
      requires Valid() && sock in sockets
      modifies this
      ensures Valid()
      ensures var s := old(sockets[sock]);
        activeBots == AfterQr(AfterConnection(old(activeBots), sock, s, u.connection), sock, s, u.qr)
      ensures var s := old(sockets[sock]);
        if u.connection == Close(false) then
          dirs == old(dirs) + {s.name} && creds == old(creds)
          && (restartOk ==> sockets == old(sockets)[old(nextSocket) := Socket(s.name, false, true)]
                            && nextSocket == old(nextSocket) + 1)
          && (!restartOk ==> sockets == old(sockets) && nextSocket == old(nextSocket))
        else
          dirs == old(dirs) && creds == old(creds) && nextSocket == old(nextSocket)
          && sockets == if u.connection.Open? && s.initialConnection
                        then old(sockets)[sock := s.(initialConnection := false)]
                        else old(sockets)
    {
      var s := sockets[sock];
      ConnectionHalf(sock, s, u.connection, restartOk);
      QrHalf(sock, s, u.qr);
    }

    /** The `connection` part of the callback of socket `sock`, whose state was `s`. */
    method ConnectionHalf(sock: SocketId, s: Socket, c: Connection, restartOk: bool)
      requires Valid() && sock in sockets && sockets[sock] == s
      modifies this
      ensures Valid() && sock in sockets && sockets[sock].name == s.name
      ensures activeBots == AfterConnection(old(activeBots), sock, s, c)
      ensures if c == Close(false) then
          dirs == old(dirs) + {s.name} && creds == old(creds)
          && (restartOk ==> sockets == old(sockets)[old(nextSocket) := Socket(s.name, false, true)]
                            && nextSocket == old(nextSocket) + 1)
          && (!restartOk ==> sockets == old(sockets) && nextSocket == old(nextSocket))
        else
          dirs == old(dirs) && creds == old(creds) && nextSocket == old(nextSocket)
          && sockets == if c.Open? && s.initialConnection
                        then old(sockets)[sock := s.(initialConnection := false)]
                        else old(sockets)
    {
      ghost var sockets0 := sockets;
      ConnectionOk(activeBots, sock, s, c, sockets);
      match c {
        case Close(loggedOut) =>
          if !loggedOut {
            var _ := StartBot(s.name, None, false, None, (t: Str) => [], restartOk);
          } else {
            activeBots := activeBots.Delete(s.name);
          }
        case Open(jid) =>
          if s.initialConnection {
            sockets := sockets[sock := s.(initialConnection := false)];
            activeBots := activeBots.Set(s.name, BotInfo(Connected, Some(jid), None, Some(sock)));
            SocketsGrowOk(activeBots, sockets0, sockets);
          }
        case Pending =>
      }
    }

    /** The QR part of the callback of a socket of session `s.name` created with `s.useQR`. */
    method QrHalf(sock: SocketId, s: Socket, qr: Str)
      requires Valid() && sock in sockets && sockets[sock].name == s.name
      modifies `activeBots
      ensures Valid()
      ensures activeBots == AfterQr(old(activeBots), sock, s, qr)
    {
      QrOk(activeBots, sock, s, qr, sockets);
      if qr != "" && s.useQR {
        if activeBots.Has(s.name) {
          var b := activeBots.entries[s.name];
          activeBots := activeBots.Set(s.name, b.(qrCode := Some(qr), status := WaitingForScan));
        } else {
          activeBots := activeBots.Set(s.name, BotInfo(WaitingForScan, None, Some(qr), Some(sock)));
        }
      }
    }

    /**
     * `GET /api/sessions`: one view per entry in insertion order, with
     * `jid` null unless set and `qrAvailable` true exactly while the entry
     * waits for a scan.
     */
    method ListSessions() returns (views: seq<SessionView>)
      requires Valid()
      ensures |views| == |activeBots.keys|
      ensures forall i :: 0 <= i < |views| ==>
        var name := activeBots.keys[i];
        var bot := activeBots.entries[name];
        views[i].name == name && views[i].status == StatusText(bot.status)
        && views[i].jid == (if Truthy(bot.jid) then bot.jid else None)
        && (views[i].qrAvailable <==> bot.status == WaitingForScan)
    {
      views := [];
      var i := 0;
      while i < |activeBots.keys|
        invariant 0 <= i <= |activeBots.keys|
        invariant |views| == i
        invariant forall k :: 0 <= k < i ==>
          var name := activeBots.keys[k];
          var bot := activeBots.entries[name];
          views[k].name == name && views[k].status == StatusText(bot.status)
          && views[k].jid == (if Truthy(bot.jid) then bot.jid else None)
          && (views[k].qrAvailable <==> bot.status == WaitingForScan)
      {
        var name := activeBots.keys[i];
        assert name in activeBots.entries;
        var bot := activeBots.entries[name];
        views := views + [SessionView(name, StatusText(bot.status), if Truthy(bot.jid) then bot.jid else None, Truthy(bot.qrCode))];
        i := i + 1;
      }
    }

    /**
     * `POST /api/sessions`.  An empty name, a name already registered, or the
     * token method without a token is refused with 400 and changes nothing.
     * In QR mode (`authMethod == "qr"`) a placeholder entry is registered
     * before `startBot`, and the answer waits for the socket's first events
     * (`FinishQrCreate`).  In token mode a failed start is rolled back: no
     * entry and no session directory remain.
     */
    method CreateSession(name: Str, authMethod: Str, sessionId: Option<Str>, fetched: Option<Str>,
                         decode: Str -> Bytes, clientOk: bool) returns (r: CreateReply)
      requires Valid()
      modifies this
      ensures Valid()
      ensures name == "" || name in old(activeBots.entries) || (authMethod != "qr" && !TokenGiven(sessionId)) ==>
        r == Done(BadRequest) && unchanged(this)
      ensures name != "" && name !in old(activeBots.entries) && authMethod == "qr" ==>
        r == AwaitingQr(clientOk)
        && activeBots == old(activeBots).Set(name, Placeholder)
        && dirs == old(dirs) + {name} && creds == old(creds)
        && (clientOk ==> sockets == old(sockets)[old(nextSocket) := Socket(name, true, true)]
                         && nextSocket == old(nextSocket) + 1)
        && (!clientOk ==> sockets == old(sockets) && nextSocket == old(nextSocket))
      ensures name != "" && name !in old(activeBots.entries) && authMethod != "qr" && TokenGiven(sessionId) ==>
        var ok := clientOk && Downloaded(sessionId, fetched).Some?;
        activeBots == old(activeBots)
        && (ok ==> r == Done(SessionCreatedNoQr) && dirs == old(dirs) + {name}
                   && creds == old(creds)[name := decode(Downloaded(sessionId, fetched).value)]
                   && sockets == old(sockets)[old(nextSocket) := Socket(name, false, true)]
                   && nextSocket == old(nextSocket) + 1)
        && (!ok ==> r == Done(Failed) && dirs == old(dirs) - {name} && creds == old(creds) - {name}
                    && sockets == old(sockets) && nextSocket == old(nextSocket))
    {
      if name == "" {
        return Done(BadRequest);
      }
      if activeBots.Has(name) {
        return Done(BadRequest);
      }
      var useQR := authMethod == "qr";
      var success;
      if useQR {
        activeBots := activeBots.Set(name, Placeholder);
        success := StartBot(name, None, true, None, decode, clientOk);
        return AwaitingQr(success);
      } else {
        if !TokenGiven(sessionId) {
          return Done(BadRequest);
        }
        success := StartBot(name, sessionId, false, fetched, decode, clientOk);
      }
      if success {
        r := Done(SessionCreatedNoQr);
      } else {
        Rollback(name);
        r := Done(Failed);
      }
    }

    /** The clean-up after a failed start: drop the entry if there is one and delete the session directory. */
    method Rollback(name: Str)
      requires Valid()
      modifies this
      ensures Valid()
      ensures activeBots == if old(activeBots).Has(name) then old(activeBots).Delete(name) else old(activeBots)
      ensures dirs == old(dirs) - {name} && creds == old(creds) - {name}
      ensures sockets == old(sockets) && nextSocket == old(nextSocket)
    {
      if activeBots.Has(name) {
        activeBots := activeBots.Delete(name);
      }
      dirs := dirs - {name};
      creds := creds - {name};
    }

    /**
     * The rest of a QR-mode `POST /api/sessions`, once the wait is over: the
     * QR code if the entry has one by now, otherwise success or failure of
     * the start, a failure being rolled back.
     */
    method FinishQrCreate(name: Str, started: bool) returns (r: Reply)
      requires Valid()
      modifies this
      ensures Valid()
      ensures name in old(activeBots.entries) && Truthy(old(activeBots.entries[name].qrCode)) ==>
        r == Reply(200, old(activeBots.entries[name].qrCode)) && unchanged(this)
      ensures !(name in old(activeBots.entries) && Truthy(old(activeBots.entries[name].qrCode))) && started ==>
        r == SessionCreatedNoQr && unchanged(this)
      ensures !(name in old(activeBots.entries) && Truthy(old(activeBots.entries[name].qrCode))) && !started ==>
        r == Failed && name !in activeBots.entries && name !in dirs && name !in creds
        && activeBots == (if old(activeBots).Has(name) then old(activeBots).Delete(name) else old(activeBots))
        && dirs == old(dirs) - {name} && creds == old(creds) - {name}
        && sockets == old(sockets) && nextSocket == old(nextSocket)
    {
      if activeBots.Has(name) && Truthy(activeBots.entries[name].qrCode) {
        return Reply(200, activeBots.entries[name].qrCode);
      }
      if started {
        r := SessionCreatedNoQr;
      } else {
        Rollback(name);
        r := Failed;
      }
    }

    /** `GET /api/sessions/:name/qr`: the QR code, or 404 when the entry or its code is missing. */
    method QrCode(name: Str) returns (r: Reply)
      requires Valid()
      ensures name !in activeBots.entries ==> r == NotFound
      ensures name in activeBots.entries ==>
        r == (if Truthy(activeBots.entries[name].qrCode) then Reply(200, activeBots.entries[name].qrCode) else NotFound)
      ensures r.code == 200 <==> name in activeBots.entries && activeBots.entries[name].status == WaitingForScan
    {
      if !activeBots.Has(name) {
        return NotFound;
      }
      var botInfo := activeBots.entries[name];
      if !Truthy(botInfo.qrCode) {
        return NotFound;
      }
      r := Reply(200, botInfo.qrCode);
    }

    /**
     * `DELETE /api/sessions/:name`: 404 and no change for an unknown name;
     * otherwise the entry's socket, if it has one, is told to log out and
     * end (`closed`), the entry is removed and the session directory deleted.
     */
    method DeleteSession(name: Str) returns (code: nat, closed: Option<SocketId>)
      requires Valid()
      modifies this
      ensures Valid()
      ensures name !in old(activeBots.entries) ==> code == 404 && closed == None && unchanged(this)
      ensures name in old(activeBots.entries) ==>
        code == 200 && closed == old(activeBots.entries[name].sock)
        && activeBots == old(activeBots).Delete(name)
        && dirs == old(dirs) - {name} && creds == old(creds) - {name}
        && sockets == old(sockets) && nextSocket == old(nextSocket)
    {
      if !activeBots.Has(name) {
        return 404, None;
      }
      var botInfo := activeBots.entries[name];
      closed := botInfo.sock;
      activeBots := activeBots.Delete(name);
      dirs := dirs - {name};
      creds := creds - {name};
      code := 200;
    }
  }
}
