// The connections and task ids of the server (src/server/mod.rs).
module Registry {
  import opened Common
  import opened Schema

  /** The channel of a connected client, by the number of its `connect` call, and its metadata. */
  datatype Connection = Connection(channel: nat, metadata: Metadata)

  type Connections = map<u32, Connection>

  datatype ScheduleTask = ScheduleTask(client: Option<Client>, ping: Option<Ping>)

  datatype Ack = Ack(taskId: u32, success: bool, errorMessage: string)

  const NEW_ACK := Ack(0, false, "")

  /** A task handed to a channel, and whether the channel took it. */
  datatype Handed = Handed(to: nat, task: Task, ok: bool)

  function HostnameOf(req: ScheduleTask): seq<byte> {
    if req.client.Some? && req.client.value.metadata.Some? then req.client.value.metadata.value.hostname else []
  }

  function IndexOf(req: ScheduleTask): u32 {
    if req.client.Some? then req.client.value.index else 0
  }

  /** A connection a request may go to: one of that hostname or, when that is empty, the one of that index. */
  predicate Matches(req: ScheduleTask, id: u32, metadata: Metadata) {
    if HostnameOf(req) != [] then metadata.hostname == HostnameOf(req) else id == IndexOf(req)
  }

  /** The request names a hostname. */
  ghost predicate Named(req: ScheduleTask) {
    req.client.Some? && req.client.value.metadata.Some? && req.client.value.metadata.value.hostname != []
  }

  /** Which connection that is, in the request's own fields. */
  lemma {:induction false} MatchesExactly(req: ScheduleTask, id: u32, metadata: Metadata)
    ensures Named(req) ==> (Matches(req, id, metadata) <==> metadata.hostname == req.client.value.metadata.value.hostname)
    ensures !Named(req) && req.client.Some? ==> (Matches(req, id, metadata) <==> id == req.client.value.index)
    ensures !Named(req) && req.client.None? ==> (Matches(req, id, metadata) <==> id == 0)
  {
  }

  ghost predicate Reachable(req: ScheduleTask, connections: Connections) {
    exists id :: id in connections && Matches(req, id, connections[id].metadata)
  }

  class ConnectionManager {
    var connections: Connections
    var connectionId: u32

    constructor ()
      ensures connections == map[] && connectionId == 0
    {
      connections, connectionId := map[], 0;
    }

    method GenerateConnectionId() returns (id: u32)
      modifies this`connectionId
      ensures id == connectionId == Add32(old(connectionId), 1)
    {
      connectionId := Add32(connectionId, 1);
      id := connectionId;
    }

    method RegisterConnection(id: u32, connection: Connection)
      modifies this`connections
      ensures connections == old(connections)[id := connection]
    {
      connections := connections[id := connection];
    }

    method UnregisterConnection(id: u32)
      modifies this`connections
      ensures connections == old(connections) - {id}
    {
      connections := connections - {id};
    }

    method GetClientTxByIdx(id: u32) returns (r: Option<nat>)
      ensures r == if id in connections then Some(connections[id].channel) else None
    {
      if id in connections {
        return Some(connections[id].channel);
      }
      r := None;
    }

    /** Some connection of that hostname, if there is one; the order of the map decides which. */
    method GetClientTxByHostname(hostname: seq<byte>) returns (r: Option<nat>)
      ensures r.None? <==> forall id :: id in connections ==> connections[id].metadata.hostname != hostname
      ensures r.Some? ==> exists id :: id in connections && connections[id].metadata.hostname == hostname
                                       && connections[id].channel == r.value
    {
      var left := connections.Keys;
      while left != {}
        invariant left <= connections.Keys
        invariant forall id :: id in connections && id !in left ==> connections[id].metadata.hostname != hostname
        decreases |left|
      {
        var id :| id in left;
        if connections[id].metadata.hostname == hostname {
          return Some(connections[id].channel);
        }
        left := left - {id};
      }
      r := None;
    }
  }

  /** The part of the service that hands out tasks. */
  class TaskDispatcher {
    const connectionManager: ConnectionManager
    var currentTaskId: u32
    var log: seq<Handed>

    constructor (connectionManager: ConnectionManager)
      ensures this.connectionManager == connectionManager && currentTaskId == 0 && log == []
    {
      this.connectionManager := connectionManager;
      currentTaskId, log := 0, [];
    }

    /** Only a ping request for a reachable client uses up a task id; its ack says whether the task went out. A
        request that names a hostname goes to a connection of that hostname and fails exactly when there is
        none; any other goes to the connection with its index, 0 if it names no client. */
    method DoTask(req: ScheduleTask) returns (ack: Ack)
      modifies this`currentTaskId, this`log
      ensures req.ping.None? ==> ack == Ack(0, false, "")
      ensures req.ping.Some? && !Reachable(req, connectionManager.connections) ==>
                ack == Ack(0, false, "client does not exist")
      ensures req.ping.None? || !Reachable(req, connectionManager.connections) ==>
                currentTaskId == old(currentTaskId) && log == old(log)
      ensures req.ping.Some? && Reachable(req, connectionManager.connections) ==>
                && currentTaskId == Add32(old(currentTaskId), 1)
                && ack == Ack(old(currentTaskId), ack.success,
                              if ack.success then "" else "client exists, but was unable to send task")
                && exists id :: id in connectionManager.connections
                     && Matches(req, id, connectionManager.connections[id].metadata)
                     && log == old(log) + [Handed(connectionManager.connections[id].channel,
                                                  Task(old(currentTaskId), req.ping), ack.success)]
      ensures req.ping.Some? && Named(req) ==>
                var hostname := req.client.value.metadata.value.hostname;
                var connections := connectionManager.connections;
                && (log == old(log) <==> forall id :: id in connections ==> connections[id].metadata.hostname != hostname)
                && (log != old(log) ==>
                     exists id :: id in connections && connections[id].metadata.hostname == hostname
                       && log == old(log) + [Handed(connections[id].channel, Task(old(currentTaskId), req.ping), ack.success)])
                && (log == old(log) ==> ack == Ack(0, false, "client does not exist"))
      ensures req.ping.Some? && !Named(req) ==>
                var index := if req.client.Some? then req.client.value.index else 0;
                var connections := connectionManager.connections;
                && (index in connections ==>
                     log == old(log) + [Handed(connections[index].channel, Task(old(currentTaskId), req.ping), ack.success)])
                && (index !in connections ==> log == old(log) && ack == Ack(0, false, "client does not exist"))
    {
      ack := NEW_ACK;
      if req.ping.None? { return; }
      var tx;
      if HostnameOf(req) != [] {
        tx := connectionManager.GetClientTxByHostname(HostnameOf(req));
      } else {
        tx := connectionManager.GetClientTxByIdx(IndexOf(req));
      }
      if tx.None? {
        ack := ack.(errorMessage := "client does not exist");
        return;
      }
      var taskId := currentTaskId;
      currentTaskId := Add32(currentTaskId, 1);
      ack := ack.(taskId := taskId);
      var ok: bool := *;
      log := log + [Handed(tx.value, Task(taskId, req.ping), ok)];
      if ok {
        ack := ack.(success := true);
      } else {
        ack := ack.(errorMessage := "client exists, but was unable to send task");
      }
    }
  }
}
