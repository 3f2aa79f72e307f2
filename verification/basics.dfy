// Small vocabulary shared by the models.
module Basics {

  datatype Option<+T> = None | Some(value: T)

  // A script value: undefined, something known only by its identity, or an array.
  datatype Value = Undefined | Ref(id: nat) | Items(items: seq<Value>)

  // The receiver and the arguments that a firing passes to every callback.
  datatype Payload = Payload(context: Value, args: seq<Value>)

  datatype Outcome = Pending | Resolved | Rejected

  // Function values, known by identity. The last three are the closures that a
  // Deferred registers ahead of every user callback.
  datatype Fn = User(id: nat) | Settle(outcome: Outcome) | DisableRival | LockProgress
}
