/** The critical sections behind ClientKeys, on the objects themselves: rotation rewrites the shared key of every
    published server in place, a refresh replaces or appends one server object. */
module KeyedServers {
  import opened ClientKeys

  class ServerInfo {
    const name: string
    const construction: Construction
    const serverPk: nat
    var sharedKey: SharedKey

    constructor (name: string, construction: Construction, serverPk: nat, sharedKey: SharedKey)
      ensures this.name == name && this.construction == construction && this.serverPk == serverPk
      ensures this.sharedKey == sharedKey
    {
      this.name, this.construction, this.serverPk, this.sharedKey := name, construction, serverPk, sharedKey;
    }

    function View(): Server
      reads this
    {
      Server(name, construction, serverPk, sharedKey)
    }
  }

  /** Index of the first published server with that name, or the length of the list. */
  function FirstNamed(servers: seq<ServerInfo>, name: string): (i: nat)
    ensures i <= |servers|
    ensures i < |servers| ==> servers[i].name == name
    ensures forall j :: 0 <= j < i ==> servers[j].name != name
  {
    if servers == [] || servers[0].name == name then 0 else FirstNamed(servers[1..], name) + 1
  }

  class Proxy {
    var secret: Secret
    var publicKey: PublicKey
    var inner: seq<ServerInfo>

    /** Every published classic server has a key derived from the current client secret. */
    ghost predicate Consistent()
      reads this, inner
    {
      && publicKey == Public(secret)
      && forall i :: 0 <= i < |inner| ==> KeyedWith(inner[i].View(), secret)
    }

    method SetClientKey(secret: Secret)
      modifies `secret, `publicKey
      ensures this.secret == secret && publicKey == Public(secret)
    {
      this.secret := secret;
      publicKey := Public(secret);
    }

    method RecomputeServerSharedKey(server: ServerInfo)
      modifies server
      ensures server.View() == WithKey(old(server.View()), secret)
    {
      if !Classic(server.construction) { return; }
      server.sharedKey := ComputeSharedKey(server.construction, secret, server.serverPk);
    }

    /** rotateDNSCryptClientKey: consistent whatever the state before, and nothing but shared keys change. */
    method Rotate(secret: Secret)
      modifies `secret, `publicKey, inner
      ensures Consistent() && this.secret == secret
      ensures forall s :: s in inner ==> s.View() == WithKey(old(s.View()), secret)
    {
      SetClientKey(secret);
      for i := 0 to |inner|
        invariant this.secret == secret && publicKey == Public(secret)
        invariant forall j :: 0 <= j < i ==> inner[j].View() == WithKey(old(inner[j].View()), secret)
        invariant forall s :: s in inner ==> s.View() == old(s.View()) || s.View() == WithKey(old(s.View()), secret)
      {
        RecomputeServerSharedKey(inner[i]);
      }
    }

    /** refreshServer once the fetch is over: the server takes the place of its namesake, or joins at the end,
        with the current key whatever key the fetch saw. */
    method Publish(fetched: Server) returns (server: ServerInfo)
      requires Consistent()
      modifies `inner
      ensures Consistent() && fresh(server)
      ensures server.View() == WithKey(fetched, secret)
      ensures
        var i := FirstNamed(old(inner), fetched.name);
        inner == if i < |old(inner)| then old(inner)[i := server] else old(inner) + [server]
    {
      server := new ServerInfo(fetched.name, fetched.construction, fetched.serverPk, fetched.sharedKey);
      RecomputeServerSharedKey(server);
      for i := 0 to |inner|
        invariant inner == old(inner) && FirstNamed(inner, fetched.name) >= i
      {
        if inner[i].name == fetched.name {
          inner := inner[i := server];
          return;
        }
      }
      inner := inner + [server];
    }

    /** The key reads of Encrypt under the read lock. */
    method ReadKeys(server: ServerInfo) returns (sharedKey: SharedKey, publicKey: PublicKey)
      requires Consistent() && server in inner
      ensures Classic(server.construction) ==>
                publicKey == Public(secret) && sharedKey == Shared(server.construction, secret, server.serverPk)
    {
      return server.sharedKey, this.publicKey;
    }
  }
}
