/**
 The values the factory hands out. A Hystrix setter is built from a group
 key and a command key and is never changed afterwards, so it is a datatype.
 */
module Setters {

  /** The two kinds of Hystrix setter: HystrixCommand.Setter and
      HystrixObservableCommand.Setter. */
  datatype Variant = Command | ObservableCommand

  /** An immutable setter: the group key (the interface id of the invoker)
      and the command key (the name of the invoked method). */
  datatype Setter = Setter(variant: Variant, groupKey: string, commandKey: string)

  /** One call of a factory operation: the invoked method `key` and the two
      strings the call derives from its invoker and its request. */
  datatype Request<K> = Request(key: K, groupKey: string, commandKey: string)

  /** The setter a call builds on a cache miss. */
  function Build<K>(variant: Variant, call: Request<K>): Setter
  {
    Setter(variant, call.groupKey, call.commandKey)
  }
}
