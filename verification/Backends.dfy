/** The objects the daemon builds from its configuration: a monitor per queue, a client per node. What
    they are connected to is outside the model; only what they were built from matters here. */
module Backends {
  import opened Names
  import opened Targets

  class Monitor {
    const kind: string
    const params: map<string, string>

    constructor (kind: string, params: map<string, string>)
      ensures this.kind == kind && this.params == params
    {
      this.kind, this.params := kind, params;
    }

    predicate BuiltFrom(q: QueueConfig) { kind == q.kind && params == q.params }
  }

  /** What asking for the queues' lengths gives at a moment, by backend and key: a length, or no answer. */
  type Queues = map<(string, string), Option<nat>>

  /** A queue that does not exist is empty. */
  function Length(queues: Queues, backend: string, key: string): Option<nat>
  {
    if (backend, key) in queues then queues[(backend, key)] else Some(0)
  }

  /** An empty string counts as absent. */
  function OrNone(s: string): (r: Option<string>)
    ensures r.None? <==> s == ""
    ensures r.Some? ==> r.value == s
  {
    if s == "" then None else Some(s)
  }

  const SUPERVISOR := "supervisor"

  /** A SupervisorClient, the only kind there is. */
  class Client {
    const url: string
    const username: Option<string>
    const password: Option<string>

    constructor (url: string, username: Option<string>, password: Option<string>)
      ensures this.url == url && this.username == username && this.password == password
    {
      this.url, this.username, this.password := url, username, password;
    }

    /** Built with the connection parameters of the node. */
    predicate Connects(n: NodeConfig)
    {
      url == n.url && username == OrNone(n.username) && password == OrNone(n.password)
    }

    /** What create_node_client makes of the node. */
    predicate BuiltFrom(n: NodeConfig) { n.kind == SUPERVISOR && Connects(n) }
  }

  /** What can be built at a moment: the queues that can be connected to, the nodes a client can be made for. */
  datatype Makes = Makes(monitors: set<QueueConfig>, clients: set<NodeConfig>)

  /** create_queue_monitor: fails for an unknown type, and may fail while connecting. */
  method CreateQueueMonitor(q: QueueConfig, makes: Makes) returns (r: Option<Monitor>)
    ensures r.Some? <==> q in makes.monitors
    ensures r.Some? ==> fresh(r.value) && r.value.BuiltFrom(q)
  {
    if q !in makes.monitors {
      return None;
    }
    var m := new Monitor(q.kind, q.params);
    return Some(m);
  }

  /** create_node_client */
  method CreateNodeClient(n: NodeConfig, makes: Makes) returns (r: Option<Client>)
    ensures r.Some? <==> n.kind == SUPERVISOR && n in makes.clients
    ensures r.Some? ==> fresh(r.value) && r.value.BuiltFrom(n)
  {
    if n.kind != SUPERVISOR || n !in makes.clients {
      return None;
    }
    var c := new Client(n.url, OrNone(n.username), OrNone(n.password));
    return Some(c);
  }
}
