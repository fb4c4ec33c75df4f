/** Configurations as load_config accepts them. */
module Targets {

  datatype Kind = Supervisor | Pm2

  datatype Target = Target(
    name: string, kind: Kind, queue: string, queueKey: string, program: string, nodes: seq<string>,
    pollInterval: int, tasksPerWorker: int, minWorkers: int, maxWorkers: int,
    scaleUpStep: int, scaleDownStep: int, cooldownUp: int, cooldownDown: int)
  {
    /** The constraints load_config enforces; cooldowns are not constrained. */
    predicate Valid() {
      && 0 <= minWorkers <= maxWorkers && tasksPerWorker >= 1
      && scaleUpStep >= 1 && scaleDownStep >= 1 && pollInterval >= 1
    }
  }

  datatype QueueConfig = QueueConfig(kind: string, params: map<string, string>)

  datatype NodeConfig = NodeConfig(kind: string, url: string, username: string, password: string)

  function TargetNames(targets: seq<Target>): set<string> { set t | t in targets :: t.name }

  datatype Config = Config(queues: map<string, QueueConfig>, nodes: map<string, NodeConfig>, targets: seq<Target>)
  {
    /** Section names are unique, so target names are; every target is valid. */
    ghost predicate Accepted() {
      && (forall i :: 0 <= i < |targets| ==> targets[i].Valid())
      && (forall i, j :: 0 <= i < j < |targets| ==> targets[i].name != targets[j].name)
    }
  }
}
