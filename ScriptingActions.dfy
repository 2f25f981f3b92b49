/**
  The scripting action: an action whose work is a user script. Before the script runs,
  the `jars` folder beside the script and the `.jar` modules in it are added to the
  system class loader. The script is then evaluated, and its `execute` entry function is
  called with the configuration, the absolute path of the first input event and the
  progress forwarder. The paths the entry function returns become FILE_ADDED events.

  The script engine is an oracle: a fixed behaviour for evaluation and for the entry
  call, and a record of the calls made on it. The file system is a snapshot: the working
  directory, the files that can be opened for reading and the listing of each directory.
*/
module ScriptingActions {
  import opened Wrappers
  import opened JavaStrings
  import opened JavaFiles
  import opened Events
  import opened Progress
  import opened ActionConfigurations
  import opened BaseActions

  const SCRIPT_FILE_PROPERTY := "scriptFile"
  const LOADING_TASK := "dynamic class loading ..."
  const EVALUATING_TASK := "evaluating script ..."
  const EXECUTING_TASK := "Executing script: "
  const JAR_SUFFIX := ".jar"

  // ---------------------------------------------------------------------------
  // The system class loader.
  // ---------------------------------------------------------------------------

  /** `addURL`: a URL already on the class path is not added a second time. */
  function AddURL(urls: seq<string>, path: string): seq<string>
  {
    if path in urls then urls else urls + [path]
  }

  /** `addFile(path)`, which fails (an IOException) for a path in `rejected`. */
  function TryAdd(urls: seq<string>, rejected: set<string>, path: string): seq<string>
  {
    if path in rejected then urls else AddURL(urls, path)
  }

  /** `addFile` on each path in turn, a failure on one not stopping the others. */
  function AddAll(urls: seq<string>, rejected: set<string>, paths: seq<string>): seq<string>
  {
    if paths == [] then urls
    else TryAdd(AddAll(urls, rejected, paths[..|paths| - 1]), rejected, paths[|paths| - 1])
  }

  predicate Distinct(urls: seq<string>)
  {
    forall i, j :: 0 <= i < j < |urls| ==> urls[i] != urls[j]
  }

  /** A listed module file is loaded when it is a jar the class path string does not mention. */
  predicate IsModuleJar(name: string, classpath: string)
  {
    EndsWith(name, JAR_SUFFIX) && IndexOf(classpath, name) == -1
  }

  /** The module files of a listing that are to be added, in listing order. */
  function JarCandidates(folder: string, names: seq<string>, classpath: string): seq<string>
  {
    if names == [] then []
    else
      var name := names[|names| - 1];
      JarCandidates(folder, names[..|names| - 1], classpath)
        + (if IsModuleJar(name, classpath) then [Resolve(folder, name)] else [])
  }

  /**
    The class path after the loading step: the script's directory and then the module
    folder (the folder only when the directory went in), then every module jar.
  */
  function LoadedAfter(urls: seq<string>, rejected: set<string>, script: string, cwd: string,
                       listing: Option<seq<string>>, classpath: string): seq<string>
  {
    var folder := ModuleFolder(script, cwd);
    var directory := ScriptDirectory(script, cwd);
    var afterFolders := if directory in rejected then urls else TryAdd(AddURL(urls, directory), rejected, folder);
    match listing
    case None => afterFolders
    case Some(names) => AddAll(afterFolders, rejected, JarCandidates(folder, names, classpath))
  }

  class SystemClassLoader {
    var urls: seq<string>
    /** The paths whose URL cannot be added. */
    const rejected: set<string>

    ghost predicate Valid()
      reads this
    {
      Distinct(urls)
    }

    constructor (urls: seq<string>, rejected: set<string>)
      requires Distinct(urls)
      ensures Valid() && this.urls == urls && this.rejected == rejected
    {
      this.urls := urls;
      this.rejected := rejected;
    }

    /** `addFile(moduleFile)`: `ok` is false where the source throws an IOException. */
    method AddFile(path: string) returns (ok: bool)
      requires Valid()
      modifies this
      ensures Valid()
      ensures ok == (path !in rejected)
      ensures urls == TryAdd(old(urls), rejected, path)
    {
      ok := path !in rejected;
      if ok && path !in urls {
        urls := urls + [path];
      }
    }
  }

  /** The module jars of a listing are exactly its jar names the class path does not mention. */
  lemma {:induction false} JarCandidatesExactly(folder: string, names: seq<string>, classpath: string)
    ensures |JarCandidates(folder, names, classpath)| <= |names|
    ensures forall name :: name in names && IsModuleJar(name, classpath) ==> Resolve(folder, name) in JarCandidates(folder, names, classpath)
    ensures forall p :: p in JarCandidates(folder, names, classpath) ==>
      exists name :: name in names && IsModuleJar(name, classpath) && p == Resolve(folder, name)
  {
    if names != [] {
      var init := names[..|names| - 1];
      JarCandidatesExactly(folder, init, classpath);
      assert names == init + [names[|names| - 1]];
    }
  }

  /**
    Adding paths one by one keeps what was there in front and in place, never lists a
    URL twice, and ends with exactly the old URLs plus the paths that were not rejected.
  */
  lemma {:induction false} AddAllEffect(urls: seq<string>, rejected: set<string>, paths: seq<string>)
    requires Distinct(urls)
    ensures var r := AddAll(urls, rejected, paths);
      && Distinct(r)
      && |urls| <= |r| && r[..|urls|] == urls
      && forall p :: p in r <==> p in urls || (p in paths && p !in rejected)
  {
    if paths != [] {
      var init := paths[..|paths| - 1];
      AddAllEffect(urls, rejected, init);
      assert paths == init + [paths[|paths| - 1]];
      var before := AddAll(urls, rejected, init);
      assert (before + [paths[|paths| - 1]])[..|urls|] == before[..|urls|];
    }
  }

  /**
    After the loading step the class path holds exactly the old URLs, the script's
    directory unless it was rejected, the module folder if both went in, and every module
    jar of the listing that was not rejected; none twice, the old ones first.
  */
  lemma LoadedAfterEffect(urls: seq<string>, rejected: set<string>, script: string, cwd: string,
                          listing: Option<seq<string>>, classpath: string)
    requires Distinct(urls)
    ensures var r := LoadedAfter(urls, rejected, script, cwd, listing, classpath);
      var directory := ScriptDirectory(script, cwd);
      var folder := ModuleFolder(script, cwd);
      && Distinct(r)
      && |urls| <= |r| && r[..|urls|] == urls
      && forall p :: p in r <==>
           || p in urls
           || (directory !in rejected && (p == directory || (p == folder && folder !in rejected)))
           || (listing.Some? && p in JarCandidates(folder, listing.value, classpath) && p !in rejected)
  {
    var directory := ScriptDirectory(script, cwd);
    var folder := ModuleFolder(script, cwd);
    var folders := if directory in rejected then [] else [directory, folder];
    FoldersAdded(urls, rejected, directory, folder);
    var afterFolders := AddAll(urls, rejected, folders);
    AddAllEffect(urls, rejected, folders);
    forall p ensures p in folders && p !in rejected <==> directory !in rejected && (p == directory || (p == folder && folder !in rejected)) {
    }
    if listing.Some? {
      var jars := JarCandidates(folder, listing.value, classpath);
      var r := AddAll(afterFolders, rejected, jars);
      AddAllEffect(afterFolders, rejected, jars);
      assert r[..|urls|] == r[..|afterFolders|][..|urls|];
    }
  }

  /** The folder step is `addFile` on the directory and then, if it went in, on the folder. */
  lemma FoldersAdded(urls: seq<string>, rejected: set<string>, directory: string, folder: string)
    ensures (if directory in rejected then urls else TryAdd(AddURL(urls, directory), rejected, folder))
      == AddAll(urls, rejected, if directory in rejected then [] else [directory, folder])
  {
    if directory !in rejected {
      var paths := [directory, folder];
      assert paths[..1] == [directory];
      assert paths[..1][..0] == [];
      assert AddAll(urls, rejected, paths[..1]) == TryAdd(urls, rejected, directory);
      assert directory !in rejected;
    }
  }

  // ---------------------------------------------------------------------------
  // The script engine.
  // ---------------------------------------------------------------------------

  /** What the entry function does when it is called. */
  datatype EntryResult =
    | ReturnedPaths(paths: seq<Option<string>>)   // a list of output paths, null entries allowed
    | ReturnedNull
    | EntryRaised(cause: Throwable)

  /**
    The engine's fixed behaviour: whether it implements Invocable, what evaluating the
    script does, and what the entry function does.
  */
  datatype EngineBehaviour = EngineBehaviour(invocable: bool, evaluation: Outcome<Throwable>, entry: EntryResult)

  /** One evaluation: the script read and the two bindings put in its fresh context. */
  datatype EvalCall = EvalCall(script: string, eventList: seq<FileEvent>, runningContext: Option<string>)

  /** One call of the entry function `execute(configuration, inputPath, progress)`. */
  datatype EntryCall = EntryCall(configuration: ActionConfiguration?, inputPath: string, progress: ProgressListenerForwarder)

  class ScriptEngine {
    const behaviour: EngineBehaviour
    var evaluated: seq<EvalCall>
    var invoked: seq<EntryCall>

    constructor (behaviour: EngineBehaviour)
      ensures this.behaviour == behaviour && evaluated == [] && invoked == []
    {
      this.behaviour := behaviour;
      evaluated := [];
      invoked := [];
    }

    /** `engine.eval(reader, bindings)`. */
    method Eval(call: EvalCall) returns (o: Outcome<Throwable>)
      modifies this
      ensures o == behaviour.evaluation
      ensures evaluated == old(evaluated) + [call] && invoked == old(invoked)
    {
      o := behaviour.evaluation;
      evaluated := evaluated + [call];
    }

    /** `invokeFunction("execute", args)`. */
    method InvokeFunction(call: EntryCall) returns (r: EntryResult)
      modifies this
      ensures r == behaviour.entry
      ensures invoked == old(invoked) + [call] && evaluated == old(evaluated)
    {
      r := behaviour.entry;
      invoked := invoked + [call];
    }
  }

  // ---------------------------------------------------------------------------
  // Translating the script's output.
  // ---------------------------------------------------------------------------

  /** The non-null paths, in order. */
  function NonNull(paths: seq<Option<string>>): seq<string>
  {
    if paths == [] then []
    else
      var last := paths[|paths| - 1];
      NonNull(paths[..|paths| - 1]) + (if last.Some? then [last.value] else [])
  }

  /** One FILE_ADDED event per non-null returned path, in order. */
  function Translate(paths: seq<Option<string>>): seq<FileEvent>
  {
    if paths == [] then []
    else
      var last := paths[|paths| - 1];
      Translate(paths[..|paths| - 1]) + (if last.Some? then [FileEvent(last.value, FileAdded)] else [])
  }

  /** Every non-null path is kept, as often as it was returned; nulls are dropped. */
  lemma {:induction false} NonNullExactly(paths: seq<Option<string>>)
    ensures forall s :: multiset(NonNull(paths))[s] == multiset(paths)[Some(s)]
    ensures forall s :: s in NonNull(paths) <==> Some(s) in paths
  {
    if paths != [] {
      var init := paths[..|paths| - 1];
      NonNullExactly(init);
      assert paths == init + [paths[|paths| - 1]];
    }
    forall s ensures s in NonNull(paths) <==> Some(s) in paths {
      assert s in NonNull(paths) <==> multiset(NonNull(paths))[s] > 0;
      assert Some(s) in paths <==> multiset(paths)[Some(s)] > 0;
    }
  }

  /** The output events are the non-null paths, each tagged FILE_ADDED, position by position. */
  lemma {:induction false} TranslateIsAddedEvents(paths: seq<Option<string>>)
    ensures |Translate(paths)| == |NonNull(paths)| <= |paths|
    ensures forall i :: 0 <= i < |Translate(paths)| ==> Translate(paths)[i] == FileEvent(NonNull(paths)[i], FileAdded)
  {
    if paths != [] {
      TranslateIsAddedEvents(paths[..|paths| - 1]);
    }
  }

  /** The forwarding loop over the list the entry function returned. */
  method ForwardEvents(outputFiles: seq<Option<string>>) returns (ret: seq<FileEvent>)
    ensures ret == Translate(outputFiles)
    ensures forall i :: 0 <= i < |ret| ==> ret[i].kind == FileAdded
  {
    ret := [];
    var i := 0;
    while i < |outputFiles|
      invariant 0 <= i <= |outputFiles|
      invariant ret == Translate(outputFiles[..i])
    {
      var outputFile := outputFiles[i];
      assert outputFiles[..i + 1][..i] == outputFiles[..i];
      if outputFile.Some? {
        ret := ret + [FileEvent(outputFile.value, FileAdded)];
      }
      i := i + 1;
    }
    assert outputFiles[..i] == outputFiles;
    TranslateIsAddedEvents(outputFiles);
  }

  // ---------------------------------------------------------------------------
  // How a run ends.
  // ---------------------------------------------------------------------------

  /** The file-system snapshot a run sees. */
  datatype FileSystem = FileSystem(cwd: string, readable: set<string>, listings: map<string, seq<string>>)

  /** `listFiles()` of a directory: null when it cannot be listed. */
  function Listing(fs: FileSystem, directory: string): Option<seq<string>>
  {
    if directory in fs.listings then Some(fs.listings[directory]) else None
  }

  /** `new FileReader(script)` succeeds. */
  predicate Readable(fs: FileSystem, script: string)
  {
    Absolute(script, fs.cwd) in fs.readable
  }

  /** The two exceptions the inner handler catches. */
  predicate Handled(t: Throwable)
  {
    t.FileNotFoundException? || t.ScriptException?
  }

  /**
    The three ways a run ends: completed with its output; failed with the cause
    swallowed (an empty result); or failed with the cause rethrown as an ActionException,
    with or without the input queue already cleared.
  */
  datatype Ending =
    | Finished(out: seq<FileEvent>)
    | Swallowed(cause: Throwable)
    | Raised(cause: Throwable, inputCleared: bool)

  function Caught(t: Throwable): Ending
  {
    if Handled(t) then Swallowed(t) else Raised(t, false)
  }

  /** `Some(engine.behaviour)`, or None for a null engine. */
  function BehaviourOf(engine: ScriptEngine?): Option<EngineBehaviour>
  {
    if engine == null then None else Some(engine.behaviour)
  }

  /** The run gets to the entry call's task: the script opens, evaluates and the engine is Invocable. */
  predicate ReachesEntry(script: string, fs: FileSystem, engine: Option<EngineBehaviour>)
  {
    Readable(fs, script) && engine.Some? && engine.value.evaluation.Pass? && engine.value.invocable
  }

  /** The end of the inner try block (evaluation, entry call, forwarding). */
  function ScriptEnding(script: string, fs: FileSystem, engine: Option<EngineBehaviour>, input: seq<FileEvent>): Ending
  {
    if !Readable(fs, script) then Swallowed(FileNotFoundException)
    else if engine.None? then Raised(NullPointerException, false)
    else if engine.value.evaluation.Fail? then Caught(engine.value.evaluation.error)
    else if !engine.value.invocable then Raised(ClassCastException, false)
    else if input == [] then Raised(NullPointerException, false)
    else match engine.value.entry
      case EntryRaised(t) => Caught(t)
      case ReturnedNull => Raised(NullPointerException, true)
      case ReturnedPaths(paths) => Finished(Translate(paths))
  }

  /** The end of a whole run. */
  function EndingOf(hasConfiguration: bool, scriptFile: Option<string>, fs: FileSystem,
                    engine: Option<EngineBehaviour>, input: seq<FileEvent>): Ending
  {
    if !hasConfiguration then Raised(IllegalStateException, false)
    else if scriptFile.None? then Raised(NullPointerException, false)
    else ScriptEnding(scriptFile.value, fs, engine, input)
  }

  /** What the inner try block notifies. */
  function ScriptNotes(script: string, fs: FileSystem, engine: Option<EngineBehaviour>, input: seq<FileEvent>): seq<Notification>
  {
    (if ReachesEntry(script, fs, engine) then [TaskChanged(EXECUTING_TASK + Name(script))] else [])
      + match ScriptEnding(script, fs, engine, input)
        case Finished(_) => [Completed]
        case Swallowed(c) => [Failed(c)]
        case Raised(_, _) => []
  }

  /** Every notification of a run past the class loading step, for the script file `script`. */
  function ScriptTrace(script: string, fs: FileSystem, engine: Option<EngineBehaviour>, input: seq<FileEvent>): seq<Notification>
  {
    var ending := ScriptEnding(script, fs, engine, input);
    [TaskChanged(EVALUATING_TASK)] + ScriptNotes(script, fs, engine, input)
      + (if ending.Raised? then [Failed(ending.cause)] else [])
  }

  /** Every notification of a run past the configuration check. */
  function ConfiguredTrace(scriptFile: Option<string>, fs: FileSystem, engine: Option<EngineBehaviour>, input: seq<FileEvent>): seq<Notification>
  {
    [TaskChanged(LOADING_TASK)]
      + match scriptFile
        case None => [Failed(NullPointerException)]
        case Some(script) => ScriptTrace(script, fs, engine, input)
  }

  /** Every notification of a run, in order. */
  function TraceOf(hasConfiguration: bool, scriptFile: Option<string>, fs: FileSystem,
                   engine: Option<EngineBehaviour>, input: seq<FileEvent>): seq<Notification>
  {
    [Started]
      + if hasConfiguration then ConfiguredTrace(scriptFile, fs, engine, input) else [Failed(IllegalStateException)]
  }

  /**
    A notification followed by the rest of a trace, appended to a log: associativity of
    concatenation, stated once so that the methods below need not rediscover it.
  */
  lemma AppendThenTrace(log: seq<Notification>, n: Notification, rest: seq<Notification>)
    ensures log + [n] + rest == log + ([n] + rest)
  {
  }

  /** A terminal notification. */
  predicate Terminal(n: Notification)
  {
    n.Completed? || n.Failed?
  }

  /**
    A run is announced first and ends with exactly one terminal notification: completed
    when it finished, failed with the cause otherwise.
  */
  lemma RunNotifiesOnce(hasConfiguration: bool, scriptFile: Option<string>, fs: FileSystem,
                        engine: Option<EngineBehaviour>, input: seq<FileEvent>)
    ensures var trace := TraceOf(hasConfiguration, scriptFile, fs, engine, input);
      var ending := EndingOf(hasConfiguration, scriptFile, fs, engine, input);
      && 2 <= |trace| && trace[0] == Started
      && trace[|trace| - 1] == (if ending.Finished? then Completed else Failed(ending.cause))
      && forall i :: 0 <= i < |trace| - 1 ==> !Terminal(trace[i])
  {
  }

  /** Only a missing script or a script error is swallowed; every other failure is rethrown. */
  lemma FailuresSorted(hasConfiguration: bool, scriptFile: Option<string>, fs: FileSystem,
                       engine: Option<EngineBehaviour>, input: seq<FileEvent>)
    ensures var ending := EndingOf(hasConfiguration, scriptFile, fs, engine, input);
      && (ending.Swallowed? ==> Handled(ending.cause))
      && (ending.Raised? ==> !Handled(ending.cause))
      && (ending.Raised? && ending.inputCleared ==> ending.cause == NullPointerException)
  {
  }

  /** An empty input queue is rethrown as a NullPointerException once the entry call is reached. */
  lemma EmptyInputRaises(script: string, fs: FileSystem, engine: Option<EngineBehaviour>)
    requires ReachesEntry(script, fs, engine)
    ensures EndingOf(true, Some(script), fs, engine, []) == Raised(NullPointerException, false)
  {
  }

  /**
    A run with a null engine (every run after the first) never completes: it fails on
    the missing script or throws.
  */
  lemma SingleUse(hasConfiguration: bool, scriptFile: Option<string>, fs: FileSystem, input: seq<FileEvent>)
    ensures var ending := EndingOf(hasConfiguration, scriptFile, fs, None, input);
      && !ending.Finished?
      && (hasConfiguration && scriptFile.Some? && Readable(fs, scriptFile.value) ==> ending == Raised(NullPointerException, false))
  {
  }

  /** What `execute` returns or throws. */
  datatype ExecResult =
    | Returned(events: seq<FileEvent>)
    | Thrown(cause: Throwable)   // an ActionException carrying `cause`

  function ResultOf(ending: Ending): ExecResult
  {
    match ending
    case Finished(out) => Returned(out)
    case Swallowed(_) => Returned([])
    case Raised(cause, _) => Thrown(cause)
  }

  predicate ClearsInput(ending: Ending)
  {
    ending.Finished? || (ending.Raised? && ending.inputCleared)
  }

  /** `configuration.getScriptFile()`, None also for a null configuration. */
  function ScriptFileOr(configuration: ActionConfiguration?): Option<string>
    reads configuration
  {
    if configuration == null then None else ScriptFileOf(configuration)
  }

  /** `configuration.getScriptFile()`. */
  function ScriptFileOf(configuration: ActionConfiguration): Option<string>
    reads configuration
  {
    if SCRIPT_FILE_PROPERTY in configuration.fields && configuration.fields[SCRIPT_FILE_PROPERTY].Text?
    then configuration.fields[SCRIPT_FILE_PROPERTY].text
    else None
  }

  // ---------------------------------------------------------------------------
  // The action.
  // ---------------------------------------------------------------------------

  class ScriptingAction {
    /** The BaseAction part of the action. */
    const action: BaseAction
    const configuration: ActionConfiguration?
    var engine: ScriptEngine?
    /** Whether the ScriptEngineManager reference is still held. */
    var hasFactory: bool

    /** `ScriptingAction(configuration)`, with `engine` what the factory finds for its language. */
    constructor (configuration: ActionConfiguration, engine: ScriptEngine?)
      requires configuration.Valid()
      ensures this.configuration == configuration && this.engine == engine && hasFactory
      ensures fresh(action) && fresh(action.listenerForwarder)
      ensures action.id == configuration.Id() && action.name == configuration.Name()
      ensures action.description == configuration.Description()
      ensures action.failIgnored == configuration.FailIgnored()
      ensures action.runningContext == None && action.tempDir == None
      ensures action.GetListeners() == [] && action.listenerForwarder.notifications == []
    {
      action := new BaseAction.FromConfiguration(configuration);
      this.configuration := configuration;
      this.engine := engine;
      hasFactory := true;
    }

    /**
      `execute(events)`. `fs` and `classpath` are the file system and the
      `java.class.path` property at the time of the call.
    */
    method Execute(events: EventQueue, loader: SystemClassLoader, fs: FileSystem, classpath: string)
      returns (result: ExecResult)
      requires IsAbsolute(fs.cwd)
      requires loader.Valid()
      modifies this, events, loader, action.listenerForwarder, engine
      ensures var ending := EndingOf(configuration != null, ScriptFileOr(configuration), fs, BehaviourOf(old(engine)), old(events.items));
        && result == ResultOf(ending)
        && events.items == (if ClearsInput(ending) then [] else old(events.items))
      ensures action.listenerForwarder.notifications == old(action.listenerForwarder.notifications)
        + TraceOf(configuration != null, ScriptFileOr(configuration), fs, BehaviourOf(old(engine)), old(events.items))
      ensures loader.urls
        == if ScriptFileOr(configuration).None? then old(loader.urls)
           else LoadedAfter(old(loader.urls), loader.rejected, ScriptFileOr(configuration).value, fs.cwd,
                            Listing(fs, ModuleFolder(ScriptFileOr(configuration).value, fs.cwd)), classpath)
      ensures loader.Valid()
      ensures action.listenerForwarder.listeners == old(action.listenerForwarder.listeners)
      ensures engine == null && !hasFactory
    {
      ghost var log := action.listenerForwarder.notifications;
      action.listenerForwarder.Notify(Started);
      if configuration == null {
        action.listenerForwarder.Notify(Failed(IllegalStateException));
        AppendThenTrace(log, Started, [Failed(IllegalStateException)]);
        engine, hasFactory := null, false;
        return Thrown(IllegalStateException);
      }
      result := RunWithConfiguration(events, loader, fs, classpath);
      AppendThenTrace(log, Started, ConfiguredTrace(ScriptFileOf(configuration), fs, BehaviourOf(old(engine)), old(events.items)));
    }

    /** `execute` past the configuration check: the script file is looked up, then loaded and run. */
    method RunWithConfiguration(events: EventQueue, loader: SystemClassLoader, fs: FileSystem, classpath: string)
      returns (result: ExecResult)
      requires configuration != null
      requires IsAbsolute(fs.cwd)
      requires loader.Valid()
      modifies this, events, loader, action.listenerForwarder, engine
      ensures var ending := EndingOf(true, ScriptFileOf(configuration), fs, BehaviourOf(old(engine)), old(events.items));
        && result == ResultOf(ending)
        && events.items == (if ClearsInput(ending) then [] else old(events.items))
      ensures action.listenerForwarder.notifications == old(action.listenerForwarder.notifications)
        + ConfiguredTrace(ScriptFileOf(configuration), fs, BehaviourOf(old(engine)), old(events.items))
      ensures loader.urls
        == if ScriptFileOf(configuration).None? then old(loader.urls)
           else LoadedAfter(old(loader.urls), loader.rejected, ScriptFileOf(configuration).value, fs.cwd,
                            Listing(fs, ModuleFolder(ScriptFileOf(configuration).value, fs.cwd)), classpath)
      ensures loader.Valid()
      ensures action.listenerForwarder.listeners == old(action.listenerForwarder.listeners)
      ensures engine == null && !hasFactory
    {
      ghost var log := action.listenerForwarder.notifications;
      action.listenerForwarder.Notify(TaskChanged(LOADING_TASK));
      var scriptFile := ScriptFileOf(configuration);
      if scriptFile.None? {
        action.listenerForwarder.Notify(Failed(NullPointerException));
        AppendThenTrace(log, TaskChanged(LOADING_TASK), [Failed(NullPointerException)]);
        engine, hasFactory := null, false;
        return Thrown(NullPointerException);
      }
      result := RunConfigured(events, loader, fs, classpath, scriptFile.value);
      AppendThenTrace(log, TaskChanged(LOADING_TASK), ScriptTrace(scriptFile.value, fs, BehaviourOf(old(engine)), old(events.items)));
    }

    /** `execute` past the configuration checks, for the script file `script`. */
    method RunConfigured(events: EventQueue, loader: SystemClassLoader, fs: FileSystem, classpath: string, script: string)
      returns (result: ExecResult)
      requires IsAbsolute(fs.cwd)
      requires loader.Valid()
      modifies this, events, loader, action.listenerForwarder, engine
      ensures var ending := ScriptEnding(script, fs, BehaviourOf(old(engine)), old(events.items));
        && result == ResultOf(ending)
        && events.items == (if ClearsInput(ending) then [] else old(events.items))
      ensures action.listenerForwarder.notifications == old(action.listenerForwarder.notifications)
        + ScriptTrace(script, fs, BehaviourOf(old(engine)), old(events.items))
      ensures loader.Valid()
      ensures loader.urls == LoadedAfter(old(loader.urls), loader.rejected, script, fs.cwd,
                                         Listing(fs, ModuleFolder(script, fs.cwd)), classpath)
      ensures action.listenerForwarder.listeners == old(action.listenerForwarder.listeners)
      ensures engine == null && !hasFactory
    {
      LoadModules(loader, fs, script, classpath);
      result := EvaluateScript(events, fs, script);
    }

    /**
      The steps after class loading: the script is evaluated and run, a rethrown failure
      is notified, and the engine and its factory are released whatever happened.
    */
    method EvaluateScript(events: EventQueue, fs: FileSystem, script: string) returns (result: ExecResult)
      modifies this, events, action.listenerForwarder, engine
      ensures var ending := ScriptEnding(script, fs, BehaviourOf(old(engine)), old(events.items));
        && result == ResultOf(ending)
        && events.items == (if ClearsInput(ending) then [] else old(events.items))
      ensures action.listenerForwarder.notifications == old(action.listenerForwarder.notifications)
        + ScriptTrace(script, fs, BehaviourOf(old(engine)), old(events.items))
      ensures action.listenerForwarder.listeners == old(action.listenerForwarder.listeners)
      ensures engine == null && !hasFactory
    {
      var forwarder := action.listenerForwarder;
      forwarder.Notify(TaskChanged(EVALUATING_TASK));
      var ending := RunScript(events, fs, script);
      if ending.Raised? {
        forwarder.Notify(Failed(ending.cause));
      }
      result := ResultOf(ending);
      engine, hasFactory := null, false;
    }

    /** The class-loading step: the script's directory, the module folder, then the module jars. */
    method LoadModules(loader: SystemClassLoader, fs: FileSystem, script: string, classpath: string)
      requires IsAbsolute(fs.cwd)
      requires loader.Valid()
      modifies loader
      ensures loader.Valid()
      ensures loader.urls == LoadedAfter(old(loader.urls), loader.rejected, script, fs.cwd,
                                         Listing(fs, ModuleFolder(script, fs.cwd)), classpath)
    {
      var moduleFolder := ModuleFolder(script, fs.cwd);
      ModuleFolderBesideScript(script, fs.cwd);
      var directory := Parent(moduleFolder).value;
      var ok := loader.AddFile(directory);
      if ok {
        // the folder is only tried when its parent went in
        ok := loader.AddFile(moduleFolder);
      }
      var moduleFiles := Listing(fs, moduleFolder);
      if moduleFiles.Some? {
        AddModules(loader, moduleFolder, moduleFiles.value, classpath);
      }
    }

    /** The loop over the module folder's listing: every jar the class path does not mention is added. */
    method AddModules(loader: SystemClassLoader, moduleFolder: string, names: seq<string>, classpath: string)
      requires loader.Valid()
      modifies loader
      ensures loader.Valid()
      ensures loader.urls == AddAll(old(loader.urls), loader.rejected, JarCandidates(moduleFolder, names, classpath))
    {
      for i := 0 to |names|
        invariant loader.Valid()
        invariant loader.urls == AddAll(old(loader.urls), loader.rejected, JarCandidates(moduleFolder, names[..i], classpath))
      {
        var name := names[i];
        assert names[..i + 1][..i] == names[..i];
        ghost var done := JarCandidates(moduleFolder, names[..i], classpath);
        if EndsWith(name, JAR_SUFFIX) && IndexOf(classpath, name) == -1 {
          // a failure on one module is logged and the loop goes on
          var ok := loader.AddFile(Resolve(moduleFolder, name));
          assert JarCandidates(moduleFolder, names[..i + 1], classpath) == done + [Resolve(moduleFolder, name)];
          assert (done + [Resolve(moduleFolder, name)])[..|done|] == done;
        } else {
          assert JarCandidates(moduleFolder, names[..i + 1], classpath) == done + [] == done;
        }
      }
      assert names[..|names|] == names;
    }

    /** The inner try block: evaluation, the entry call, clearing the input and forwarding the output. */
    method RunScript(events: EventQueue, fs: FileSystem, script: string) returns (ending: Ending)
      modifies events, action.listenerForwarder, engine
      ensures ending == ScriptEnding(script, fs, BehaviourOf(old(engine)), old(events.items))
      ensures action.listenerForwarder.notifications == old(action.listenerForwarder.notifications)
        + ScriptNotes(script, fs, BehaviourOf(old(engine)), old(events.items))
      ensures action.listenerForwarder.listeners == old(action.listenerForwarder.listeners)
      ensures events.items == (if ClearsInput(ending) then [] else old(events.items))
      ensures engine == old(engine)
      ensures old(engine) != null ==>
        && (Readable(fs, script) ==>
              engine.evaluated == old(engine.evaluated) + [EvalCall(script, old(events.items), action.runningContext)])
        && (ReachesEntry(script, fs, BehaviourOf(old(engine))) && old(events.items) != [] ==>
              engine.invoked == old(engine.invoked)
                + [EntryCall(configuration, Absolute(old(events.items)[0].source, fs.cwd), action.listenerForwarder)])
    {
      var forwarder := action.listenerForwarder;
      if !Readable(fs, script) {
        forwarder.Notify(Failed(FileNotFoundException));
        return Swallowed(FileNotFoundException);
      }
      if engine == null {
        return Raised(NullPointerException, false);
      }
      var evaluation := engine.Eval(EvalCall(script, events.items, action.GetRunningContext()));
      if evaluation.Fail? {
        ending := Caught(evaluation.error);
        if ending.Swallowed? {
          forwarder.Notify(Failed(ending.cause));
        }
        return;
      }
      if !engine.behaviour.invocable {
        return Raised(ClassCastException, false);
      }
      forwarder.Notify(TaskChanged(EXECUTING_TASK + Name(script)));
      var head := events.Peek();
      if head.None? {
        return Raised(NullPointerException, false);
      }
      var output := engine.InvokeFunction(EntryCall(configuration, Absolute(head.value.source, fs.cwd), forwarder));
      match output
      case EntryRaised(t) =>
        ending := Caught(t);
        if ending.Swallowed? {
          forwarder.Notify(Failed(ending.cause));
        }
      case ReturnedNull =>
        events.Clear();
        ending := Raised(NullPointerException, true);
      case ReturnedPaths(outputFiles) =>
        events.Clear();
        var ret := ForwardEvents(outputFiles);
        forwarder.Notify(Completed);
        ending := Finished(ret);
    }
  }
}
