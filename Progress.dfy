/**
  Progress reporting: listeners, the notifications an action sends them, and the
  forwarder that holds an action's listener set. The forwarder's own source is not part
  of this model; it is modelled as the list of registered listeners plus the log of
  notifications it has forwarded to them.
*/
module Progress {

  /** What a thrown java.lang.Throwable is, as far as the core distinguishes it. */
  datatype Throwable =
    | IllegalStateException
    | NullPointerException
    | FileNotFoundException
    | ScriptException
    | ClassCastException
    | OtherThrowable

  /**
    A registered progress listener. `kinds` names every class and interface its runtime
    class is assignable to (its class, its superclasses, their interfaces), so that
    `clazz.isAssignableFrom(listener.getClass())` is `clazz in kinds`.
  */
  datatype Listener = Listener(id: nat, kinds: set<string>)

  /** One call made on the forwarder, which passes it on to every listener. */
  datatype Notification =
    | Started
    | TaskChanged(task: string)
    | Completed
    | Failed(cause: Throwable)

  /** The first occurrence of `l` removed from `ls`, as `Collection.remove` does. */
  function RemoveFirst(ls: seq<Listener>, l: Listener): (r: seq<Listener>)
  {
    if ls == [] then []
    else if ls[0] == l then ls[1..]
    else [ls[0]] + RemoveFirst(ls[1..], l)
  }

  /** Removing a listener that is registered drops exactly one entry; one that is not changes nothing. */
  lemma {:induction false} RemoveFirstEffect(ls: seq<Listener>, l: Listener)
    ensures l in ls ==> |RemoveFirst(ls, l)| == |ls| - 1
    ensures l !in ls ==> RemoveFirst(ls, l) == ls
    ensures multiset(RemoveFirst(ls, l)) == multiset(ls) - multiset{l}
  {
    if ls != [] {
      RemoveFirstEffect(ls[1..], l);
      assert ls == [ls[0]] + ls[1..];
    }
  }

  class ProgressListenerForwarder {
    var listeners: seq<Listener>
    var notifications: seq<Notification>

    constructor ()
      ensures listeners == [] && notifications == []
    {
      listeners := [];
      notifications := [];
    }

    method AddListener(l: Listener)
      modifies this
      ensures listeners == old(listeners) + [l]
      ensures notifications == old(notifications)
    {
      listeners := listeners + [l];
    }

    method RemoveListener(l: Listener)
      modifies this
      ensures listeners == RemoveFirst(old(listeners), l)
      ensures notifications == old(notifications)
    {
      listeners := RemoveFirst(listeners, l);
    }

    method Notify(n: Notification)
      modifies this
      ensures notifications == old(notifications) + [n]
      ensures listeners == old(listeners)
    {
      notifications := notifications + [n];
    }
  }
}
