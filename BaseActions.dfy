/**
  The state every action shares: its identity, the context it runs in, its temporary
  directory, whether its failures are ignored, and the forwarder holding its progress
  listeners. Pausing is not supported: every pause request is refused.
*/
module BaseActions {
  import opened Wrappers
  import opened Progress
  import opened ActionConfigurations

  /** The listeners of `ls` assignable to the class named `clazz`, in order. */
  function AssignableTo(ls: seq<Listener>, clazz: string): seq<Listener>
  {
    if ls == [] then []
    else
      var last := ls[|ls| - 1];
      AssignableTo(ls[..|ls| - 1], clazz) + (if clazz in last.kinds then [last] else [])
  }

  /** `sub` keeps some of the elements of `s`, in their order. */
  predicate IsSubsequence(sub: seq<Listener>, s: seq<Listener>)
  {
    if sub == [] then true
    else if s == [] then false
    else if sub[|sub| - 1] == s[|s| - 1] then IsSubsequence(sub[..|sub| - 1], s[..|s| - 1])
    else IsSubsequence(sub, s[..|s| - 1])
  }

  /** Every listener the filter keeps is assignable, and is kept as often as it is registered. */
  lemma {:induction false} AssignableToCounts(ls: seq<Listener>, clazz: string)
    ensures var r := AssignableTo(ls, clazz);
      forall l :: multiset(r)[l] == if clazz in l.kinds then multiset(ls)[l] else 0
  {
    if ls != [] {
      var n := |ls| - 1;
      AssignableToCounts(ls[..n], clazz);
      assert ls == ls[..n] + [ls[n]];
    }
  }

  /** The filter keeps exactly the registered listeners assignable to `clazz`. */
  lemma AssignableToMembers(ls: seq<Listener>, clazz: string)
    ensures forall l :: l in AssignableTo(ls, clazz) <==> l in ls && clazz in l.kinds
  {
    AssignableToCounts(ls, clazz);
    forall l ensures l in AssignableTo(ls, clazz) <==> l in ls && clazz in l.kinds {
      assert l in AssignableTo(ls, clazz) <==> multiset(AssignableTo(ls, clazz))[l] > 0;
      assert l in ls <==> multiset(ls)[l] > 0;
    }
  }

  /** The filter keeps the registration order. */
  lemma {:induction false} AssignableToSubsequence(ls: seq<Listener>, clazz: string)
    ensures IsSubsequence(AssignableTo(ls, clazz), ls)
  {
    if ls != [] {
      var n := |ls| - 1;
      var r0 := AssignableTo(ls[..n], clazz);
      AssignableToSubsequence(ls[..n], clazz);
      if clazz in ls[n].kinds {
        assert (r0 + [ls[n]])[..|r0|] == r0;
      } else if r0 != [] {
        AssignableToMembers(ls[..n], clazz);
        assert r0[|r0| - 1] in r0;
        assert r0[|r0| - 1] != ls[n];
        assert AssignableTo(ls, clazz) == r0 + [] == r0;
      }
    }
  }

  class BaseAction {
    const id: Option<string>
    const name: Option<string>
    const description: Option<string>
    /** The context the action runs in; set by the flow manager. */
    var runningContext: Option<string>
    /** The directory for temporary files; set by the flow manager. */
    var tempDir: Option<string>
    var failIgnored: bool
    const listenerForwarder: ProgressListenerForwarder

    /** `BaseAction(id, name, description)`: failures are not ignored. */
    constructor (id: string, name: string, description: string)
      ensures this.id == Some(id) && this.name == Some(name) && this.description == Some(description)
      ensures runningContext == None && tempDir == None
      ensures !failIgnored
      ensures fresh(listenerForwarder) && GetListeners() == [] && listenerForwarder.notifications == []
    {
      this.id := Some(id);
      this.name := Some(name);
      this.description := Some(description);
      runningContext := None;
      tempDir := None;
      failIgnored := false;
      listenerForwarder := new ProgressListenerForwarder();
    }

    /** `BaseAction(configuration)`: identity and failIgnored are copied from the configuration. */
    constructor FromConfiguration(configuration: ActionConfiguration)
      requires configuration.Valid()
      ensures id == configuration.Id() && name == configuration.Name() && description == configuration.Description()
      ensures failIgnored == configuration.FailIgnored()
      ensures runningContext == None && tempDir == None
      ensures fresh(listenerForwarder) && GetListeners() == [] && listenerForwarder.notifications == []
    {
      id := configuration.Id();
      name := configuration.Name();
      description := configuration.Description();
      runningContext := None;
      tempDir := None;
      failIgnored := configuration.FailIgnored();
      listenerForwarder := new ProgressListenerForwarder();
    }

    function GetRunningContext(): Option<string>
      reads this
    {
      runningContext
    }

    method SetRunningContext(context: Option<string>)
      modifies this
      ensures GetRunningContext() == context
      ensures tempDir == old(tempDir) && failIgnored == old(failIgnored)
    {
      runningContext := context;
    }

    function GetTempDir(): Option<string>
      reads this
    {
      tempDir
    }

    method SetTempDir(dir: Option<string>)
      modifies this
      ensures GetTempDir() == dir
      ensures runningContext == old(runningContext) && failIgnored == old(failIgnored)
    {
      tempDir := dir;
    }

    function IsFailIgnored(): bool
      reads this
    {
      failIgnored
    }

    method SetFailIgnored(ignored: bool)
      modifies this
      ensures IsFailIgnored() == ignored
      ensures runningContext == old(runningContext) && tempDir == old(tempDir)
    {
      failIgnored := ignored;
    }

    /** `destroy`: releases nothing and changes nothing. */
    method Destroy()
      ensures unchanged(this, listenerForwarder)
    {
    }

    /** The action is never paused. */
    function IsPaused(): (paused: bool)
      ensures !paused
    {
      false
    }

    /** `pause()`: the request is logged and refused. */
    method Pause() returns (honoured: bool)
      ensures !honoured
      ensures !IsPaused()
    {
      honoured := false;
    }

    /** `pause(sub)`: the request is logged and refused, whatever `sub` says. */
    method PauseSub(sub: bool) returns (honoured: bool)
      ensures !honoured
      ensures !IsPaused()
    {
      honoured := false;
    }

    /** `resume`: only logged. */
    method Resume()
      ensures unchanged(this, listenerForwarder)
    {
    }

    function GetListeners(): seq<Listener>
      reads this, listenerForwarder
    {
      listenerForwarder.listeners
    }

    method AddListener(l: Listener)
      modifies listenerForwarder
      ensures GetListeners() == old(GetListeners()) + [l]
      ensures listenerForwarder.notifications == old(listenerForwarder.notifications)
    {
      listenerForwarder.AddListener(l);
    }

    method RemoveListener(l: Listener)
      modifies listenerForwarder
      ensures GetListeners() == RemoveFirst(old(GetListeners()), l)
      ensures listenerForwarder.notifications == old(listenerForwarder.notifications)
    {
      listenerForwarder.RemoveListener(l);
    }

    /**
      `getListeners(clazz)`: a new list of the registered listeners assignable to
      `clazz`, in registration order; the registered set is not touched.
    */
    method GetListenersOf(clazz: string) returns (ret: seq<Listener>)
      ensures ret == AssignableTo(GetListeners(), clazz)
      ensures forall l :: l in ret <==> l in GetListeners() && clazz in l.kinds
      ensures IsSubsequence(ret, GetListeners())
    {
      var listeners := GetListeners();
      ret := [];
      for i := 0 to |listeners|
        invariant ret == AssignableTo(listeners[..i], clazz)
      {
        assert listeners[..i + 1][..i] == listeners[..i];
        if clazz in listeners[i].kinds {
          ret := ret + [listeners[i]];
        }
      }
      assert listeners[..|listeners|] == listeners;
      AssignableToMembers(listeners, clazz);
      AssignableToSubsequence(listeners, clazz);
    }
  }
}
