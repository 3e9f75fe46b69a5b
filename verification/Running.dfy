/** The running containers, as the Docker clients list them (reconcileGateway, loader_gateway.go). */
module RunningContainers {
  import opened Seqs

  datatype ContainerInfo = ContainerInfo(labels: map<string, string>, hostIP: string)

  /** One Docker client: its host IP and its container list, which may fail. */
  datatype Client = Client(hostIP: string, containers: Option<seq<(string, map<string, string>)>>)

  /** The containers of one list; a later one replaces an earlier one with the same ID. */
  function AddContainers(current: map<string, ContainerInfo>, listed: seq<(string, map<string, string>)>,
                         hostIP: string)
    : map<string, ContainerInfo>
  {
    if listed == [] then current
    else
      var n := |listed| - 1;
      AddContainers(current, listed[..n], hostIP)[listed[n].0 := ContainerInfo(listed[n].1, hostIP)]
  }

  /** All containers the clients list. A client whose list call fails has none. */
  function Current(clients: seq<Client>, caddyIP: string): map<string, ContainerInfo> {
    if clients == [] then map[]
    else
      var n := |clients| - 1;
      var before := Current(clients[..n], caddyIP);
      if clients[n].containers.None? then before
      else AddContainers(before, clients[n].containers.value, HostIP(clients[n], caddyIP))
  }

  /** The last place of the container in the list. */
  ghost predicate LastListed(listed: seq<(string, map<string, string>)>, cid: string, j: nat) {
    j < |listed| && listed[j].0 == cid && forall k :: j < k < |listed| ==> listed[k].0 != cid
  }

  ghost predicate Lacks(listed: seq<(string, map<string, string>)>, cid: string) {
    forall j :: 0 <= j < |listed| ==> listed[j].0 != cid
  }

  lemma {:induction false} AddedContainers(current: map<string, ContainerInfo>,
                                           listed: seq<(string, map<string, string>)>,
                                           hostIP: string, cid: string)
    ensures Lacks(listed, cid) ==>
              (cid in AddContainers(current, listed, hostIP) <==> cid in current)
              && (cid in current ==> AddContainers(current, listed, hostIP)[cid] == current[cid])
    ensures forall j: nat :: LastListed(listed, cid, j) ==>
              cid in AddContainers(current, listed, hostIP)
              && AddContainers(current, listed, hostIP)[cid] == ContainerInfo(listed[j].1, hostIP)
    decreases |listed|
  {
    if listed != [] {
      var n := |listed| - 1;
      AddedContainers(current, listed[..n], hostIP, cid);
      forall j: nat | LastListed(listed, cid, j)
        ensures cid in AddContainers(current, listed, hostIP)
                && AddContainers(current, listed, hostIP)[cid] == ContainerInfo(listed[j].1, hostIP)
      {
        assert j < n ==> LastListed(listed[..n], cid, j);
      }
    }
  }

  /** The client does not list the container, or its list failed. */
  ghost predicate Silent(client: Client, cid: string) {
    client.containers.None? || Lacks(client.containers.value, cid)
  }

  /** The last client that lists the container, and its last place there. */
  ghost predicate LastClient(clients: seq<Client>, cid: string, i: nat, j: nat) {
    && i < |clients| && clients[i].containers.Some? && LastListed(clients[i].containers.value, cid, j)
    && forall k :: i < k < |clients| ==> Silent(clients[k], cid)
  }

  ghost predicate SomeLists(clients: seq<Client>, cid: string) {
    exists i :: 0 <= i < |clients| && !Silent(clients[i], cid)
  }

  function HostIP(client: Client, caddyIP: string): string {
    if client.hostIP == "" then caddyIP else client.hostIP
  }

  lemma NextSilent(clients: seq<Client>, caddyIP: string, cid: string)
    requires clients != [] && Silent(clients[|clients| - 1], cid)
    ensures var before := Current(clients[..|clients| - 1], caddyIP);
            && (cid in Current(clients, caddyIP) <==> cid in before)
            && (cid in before ==> Current(clients, caddyIP)[cid] == before[cid])
    ensures SomeLists(clients, cid) <==> SomeLists(clients[..|clients| - 1], cid)
  {
    var n := |clients| - 1;
    if clients[n].containers.Some? {
      AddedContainers(Current(clients[..n], caddyIP), clients[n].containers.value, HostIP(clients[n], caddyIP), cid);
    }
    assert SomeLists(clients[..n], cid) ==> SomeLists(clients, cid) by {
      forall i | 0 <= i < n ensures clients[..n][i] == clients[i] {}
    }
    if SomeLists(clients, cid) {
      var i :| 0 <= i < |clients| && !Silent(clients[i], cid);
      assert clients[..n][i] == clients[i];
    }
  }

  lemma NextLists(clients: seq<Client>, caddyIP: string, cid: string, client: Client, j: nat)
    requires clients != [] && client == clients[|clients| - 1] && client.containers.Some?
    requires LastListed(client.containers.value, cid, j)
    ensures cid in Current(clients, caddyIP) && SomeLists(clients, cid)
    ensures Current(clients, caddyIP)[cid] == ContainerInfo(client.containers.value[j].1, HostIP(client, caddyIP))
  {
    var n := |clients| - 1;
    AddedContainers(Current(clients[..n], caddyIP), client.containers.value, HostIP(client, caddyIP), cid);
    assert !Silent(clients[n], cid);
  }

  /** A container is running exactly when some list that succeeded has it ... */
  lemma {:induction false} CurrentKeys(clients: seq<Client>, caddyIP: string, cid: string)
    ensures cid in Current(clients, caddyIP) <==> SomeLists(clients, cid)
    decreases |clients|
  {
    if clients != [] {
      CurrentKeys(clients[..|clients| - 1], caddyIP, cid);
      if Silent(clients[|clients| - 1], cid) {
        NextSilent(clients, caddyIP, cid);
      } else {
        var client := clients[|clients| - 1];
        LastExists(client.containers.value, cid);
        var j: nat :| LastListed(client.containers.value, cid, j);
        NextLists(clients, caddyIP, cid, client, j);
      }
    }
  }

  /** ... with the labels and host IP of the last one. */
  lemma {:induction false} CurrentHolds(clients: seq<Client>, caddyIP: string, cid: string, i: nat, j: nat)
    requires LastClient(clients, cid, i, j)
    ensures cid in Current(clients, caddyIP)
    ensures Current(clients, caddyIP)[cid]
        == ContainerInfo(clients[i].containers.value[j].1, HostIP(clients[i], caddyIP))
    decreases |clients|
  {
    var n := |clients| - 1;
    if i < n {
      NextSilent(clients, caddyIP, cid);
      CurrentHolds(clients[..n], caddyIP, cid, i, j);
    } else {
      NextLists(clients, caddyIP, cid, clients[n], j);
    }
  }

  lemma {:induction false} LastExists(listed: seq<(string, map<string, string>)>, cid: string)
    ensures Lacks(listed, cid) || exists j: nat :: LastListed(listed, cid, j)
    decreases |listed|
  {
    if !Lacks(listed, cid) {
      var n := |listed| - 1;
      if listed[n].0 == cid {
        assert LastListed(listed, cid, n);
      } else {
        LastExists(listed[..n], cid);
        assert !Lacks(listed[..n], cid) by {
          var j :| 0 <= j < |listed| && listed[j].0 == cid;
          assert listed[..n][j].0 == cid;
        }
        var j: nat :| LastListed(listed[..n], cid, j);
        assert LastListed(listed, cid, j);
      }
    }
  }

  method ListCurrent(clients: seq<Client>, caddyIP: string) returns (current: map<string, ContainerInfo>)
    ensures current == Current(clients, caddyIP)
  {
    current := map[];
    assert clients[..0] == [];
    for i := 0 to |clients|
      invariant current == Current(clients[..i], caddyIP)
    {
      assert clients[..i + 1][..i] == clients[..i];
      var hostIP := clients[i].hostIP;
      if hostIP == "" {
        hostIP := caddyIP;
      }
      if clients[i].containers.None? {
        continue;
      }
      var containers := clients[i].containers.value;
      ghost var before := current;
      for j := 0 to |containers|
        invariant current == AddContainers(before, containers[..j], hostIP)
      {
        assert containers[..j + 1][..j] == containers[..j];
        current := current[containers[j].0 := ContainerInfo(containers[j].1, hostIP)];
      }
      assert containers[..|containers|] == containers;
    }
    assert clients[..|clients|] == clients;
  }
}
