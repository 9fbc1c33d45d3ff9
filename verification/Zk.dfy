/** Vocabulary of the ZooKeeper client used by every model of the monitor. */
module Zk {

  datatype Option<+T> = None | Some(value: T)

  /** A node's payload; a node created without a value holds no data. */
  type Data = Option<string>

  /** The event a context last saw; `Dummy` marks a context that saw none yet. */
  datatype Event = Dummy | Created | Deleted | Changed | Child
}
