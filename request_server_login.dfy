/** `RequestServerLogin` (login server): the client names the game server it wants, proving
    with its LoginOk pair that it holds the session key. Server 32 stands for dimension 1 of
    server 31. `LoginController.isLoginPossible` and the database setting are inputs. */
module RequestServerLogin {
  import opened JavaInt
  import opened Wire
  import opened SessionKeys

  /** The packet body "ddc": the LoginOk pair, then the server id. */
  datatype Body = Body(skey1: int, skey2: int, serverId: int)

  function EncodeBody(b: Body): (bs: seq<byte>)
    requires IsInt(b.skey1) && IsInt(b.skey2) && 0 <= b.serverId < 256
    ensures |bs| == 9
  {
    EncodeD(b.skey1) + EncodeD(b.skey2) + EncodeC(b.serverId)
  }

  /** The server the client is sent to, and the dimension it logs into. */
  function Remap(serverId: int): (r: (int, int))
    ensures r.1 == 1 <==> serverId == 32
    ensures r.1 == 0 <==> serverId != 32
    ensures r.0 == (if serverId == 32 then 31 else serverId)
  {
    if serverId == 32 then (31, 1) else (serverId, 0)
  }

  /** Servers 31 and 32 lead to the same server, but no two ids lead to the same server and
      dimension. */
  lemma RemapInjective(a: int, b: int)
    ensures Remap(a) == Remap(b) ==> a == b
    ensures Remap(31).0 == Remap(32).0
  {
  }

  datatype CloseReason = AccessFailed | ServerOverloaded

  /** What the request does to the client: the game-server flag and PlayOk, the account's
      last dimension written to the database, or the connection closed with a reason. */
  datatype ClientEvent = JoinedGameServer | PlayOkSent(key: SessionKey) | LastDimensionUpdated(dimensionId: int)
                       | Closed(reason: CloseReason)

  /** The outcome of `run` for a client holding `key`. */
  function Outcome(key: SessionKey, b: Body, showLicence: bool, isLoginPossible: int -> bool,
                   tenkaiDatabase: bool): (events: seq<ClientEvent>)
    ensures events == [Closed(AccessFailed)] <==> showLicence && !CheckLoginPair(key, b.skey1, b.skey2)
    ensures events == [Closed(ServerOverloaded)] <==>
      (!showLicence || CheckLoginPair(key, b.skey1, b.skey2)) && !isLoginPossible(Remap(b.serverId).0)
    ensures JoinedGameServer in events <==>
      (!showLicence || CheckLoginPair(key, b.skey1, b.skey2)) && isLoginPossible(Remap(b.serverId).0)
  {
    if !showLicence || CheckLoginPair(key, b.skey1, b.skey2) then
      var (serverId, dimension) := Remap(b.serverId);
      if isLoginPossible(serverId) then
        [JoinedGameServer, PlayOkSent(key)] + (if tenkaiDatabase then [] else [LastDimensionUpdated(dimension)])
      else [Closed(ServerOverloaded)]
    else [Closed(AccessFailed)]
  }

  /** A client admitted to server 32 has dimension 1 recorded, one admitted elsewhere
      dimension 0, unless the database is Tenkai's. */
  lemma DimensionRecorded(key: SessionKey, b: Body, showLicence: bool, isLoginPossible: int -> bool)
    requires !showLicence || CheckLoginPair(key, b.skey1, b.skey2)
    requires isLoginPossible(Remap(b.serverId).0)
    ensures Outcome(key, b, showLicence, isLoginPossible, false)[2] == LastDimensionUpdated(if b.serverId == 32 then 1 else 0)
    ensures |Outcome(key, b, showLicence, isLoginPossible, true)| == 2
  {
  }

  /** The connection to a client. */
  class LoginClient {
    const sessionKey: SessionKey
    var joinedGS: bool
    var events: seq<ClientEvent>

    constructor (sessionKey: SessionKey)
      ensures this.sessionKey == sessionKey && !joinedGS && events == []
    {
      this.sessionKey := sessionKey;
      joinedGS := false;
      events := [];
    }
  }

  class RequestServerLogin {
    var skey1: int
    var skey2: int
    var serverId: int

    constructor ()
      ensures skey1 == 0 && skey2 == 0 && serverId == 0
    {
      skey1 := 0;
      skey2 := 0;
      serverId := 0;
    }

    /** `readImpl`: false, with nothing read, when fewer than 9 bytes remain. */
    method ReadImpl(buf: seq<byte>) returns (ok: bool)
      modifies this
      ensures ok <==> |buf| >= 9
      ensures !ok ==> skey1 == old(skey1) && skey2 == old(skey2) && serverId == old(serverId)
      ensures ok ==> 0 <= serverId < 256
      ensures forall b: Body :: IsInt(b.skey1) && IsInt(b.skey2) && 0 <= b.serverId < 256 && |buf| >= 9 && buf[..9] == EncodeBody(b) ==>
        ok && Body(skey1, skey2, serverId) == b
    {
      if |buf| >= 9 {
        var rest;
        skey1, rest := ReadD(buf).0, ReadD(buf).1;
        skey2, rest := ReadD(rest).0, ReadD(rest).1;
        serverId := ReadC(rest).0;
        forall b: Body | IsInt(b.skey1) && IsInt(b.skey2) && 0 <= b.serverId < 256 && buf[..9] == EncodeBody(b)
          ensures Body(skey1, skey2, serverId) == b
        {
          ReadBodyEncode(b, buf);
        }
        return true;
      }
      return false;
    }

    /** `run`: the licence check, the remap of server 32, and the login on the remapped
        server. */
    method Run(client: LoginClient, showLicence: bool, isLoginPossible: int -> bool, tenkaiDatabase: bool)
      modifies this, client
      ensures client.events == old(client.events) +
        Outcome(client.sessionKey, old(Body(skey1, skey2, serverId)), showLicence, isLoginPossible, tenkaiDatabase)
      ensures client.joinedGS <==> (old(client.joinedGS) || JoinedGameServer in
        Outcome(client.sessionKey, old(Body(skey1, skey2, serverId)), showLicence, isLoginPossible, tenkaiDatabase))
      ensures skey1 == old(skey1) && skey2 == old(skey2)
      ensures serverId == if !showLicence || CheckLoginPair(client.sessionKey, skey1, skey2)
                          then Remap(old(serverId)).0 else old(serverId)
    {
      var sk := client.sessionKey;
      if !showLicence || CheckLoginPair(sk, skey1, skey2) {
        var logIntoDimensionId := 0;
        if serverId == 32 {
          serverId := 31;
          logIntoDimensionId := 1;
        }
        if isLoginPossible(serverId) {
          client.joinedGS := true;
          client.events := client.events + [JoinedGameServer, PlayOkSent(sk)];
          if !tenkaiDatabase {
            client.events := client.events + [LastDimensionUpdated(logIntoDimensionId)];
          }
        } else {
          client.events := client.events + [Closed(ServerOverloaded)];
        }
      } else {
        client.events := client.events + [Closed(AccessFailed)];
      }
    }
  }

  /** The reads of `readImpl` undo the encoding of a body. */
  lemma ReadBodyEncode(b: Body, buf: seq<byte>)
    requires IsInt(b.skey1) && IsInt(b.skey2) && 0 <= b.serverId < 256
    requires |buf| >= 9 && buf[..9] == EncodeBody(b)
    ensures ReadD(buf).0 == b.skey1
    ensures ReadD(ReadD(buf).1).0 == b.skey2
    ensures ReadC(ReadD(ReadD(buf).1).1).0 == b.serverId
  {
    var tail := buf[9..];
    assert buf == EncodeD(b.skey1) + (EncodeD(b.skey2) + (EncodeC(b.serverId) + tail)) by {
      assert buf == buf[..9] + tail;
    }
    ReadDEncode(b.skey1, EncodeD(b.skey2) + (EncodeC(b.serverId) + tail));
    ReadDEncode(b.skey2, EncodeC(b.serverId) + tail);
    ReadCEncode(b.serverId, tail);
  }
}
