# GeoBatch action orchestration, modelled in Dafny

This project models three parts of GeoBatch's action machinery.

- **The JMX management service** (`JMXServiceManager`). A remote caller hands it a
  string-keyed parameter table. The service takes the reserved `serviceId` and `input`
  entries out of the table. It builds a fresh action configuration of the requested
  service's configuration class, and binds every remaining entry onto that bean best
  effort (`smartCopy`). It then wraps the action in a new event consumer on the
  `JMX_FLOW_MANAGER` flow, feeds it one FILE_ADDED event for the input path, submits it
  and returns its id. `getStatus` and `disposeAction` look up and remove consumers by id.
- **The scripting action** (`ScriptingAction.execute`). It first puts the `jars` folder
  beside the script, and the `.jar` modules in it, on the system class loader. It then
  evaluates the script and calls its `execute` entry function with the configuration,
  the absolute path of the first input event and the progress forwarder. Each non-null
  path the function returns becomes a FILE_ADDED output event. Progress is reported to
  the listeners, and the engine is released after the run.
- **The base action** (`BaseAction`): the identity, running context, temporary directory
  and `failIgnored` flag every action has, pausing that is always refused, and the
  progress listeners with their filter by class.

Modules, one file each:

| file | what it holds |
|---|---|
| `Wrappers.dfy` | Option (Java null), Result and Outcome (returned normally or threw) |
| `JavaStrings.dfy` | `String.split` with limit 0, `indexOf`, `endsWith`, and the proofs that split is an inverse of join up to dropped trailing separators |
| `JavaFiles.dfy` | the Unix path arithmetic of `java.io.File`: parent, name, child, absolute path |
| `Events.dfy` | file events and the event queue, as a class updated in place |
| `Progress.dfy` | listeners, the notifications an action sends, and the forwarder class |
| `ActionConfigurations.dfy` | an action configuration as a bean: a map from property name to typed property |
| `BeanBinding.dfy` | `smartCopy` and the manager's key loop, as methods, proved against a binding function |
| `FlowManagers.dfy` | the consumer registry and the executor queue of the flow manager |
| `JmxServiceManagers.dfy` | the parameter table, `callAction` (both), `getStatus`, `disposeAction` |
| `BaseActions.dfy` | the BaseAction class and the listener filter |
| `ScriptingActions.dfy` | the class loader, the script engine oracle, and `execute` with the traces it notifies |

Each imperative method has two things. First, an `ensures` that ties the new state to a
specification function of the old state: `BoundFields`, `LoadedAfter`, `TraceOf`,
`EndingOf`, `Translate` or `AssignableTo`. Second, lemmas that prove what the source
promises about that function.

### Where the code differs from the documented behaviour (the model follows the code)

- **Map tokens with more than one `=`.** The documentation says a token is split at its
  first `=`. The code takes part 1 of `split("=")`, so `a=b=c` binds `a` to `b`
  (`SplitExamplesPair`).
- **Trailing empty tokens.** The documentation says empty tokens are kept. `String.split`
  with limit 0 drops the trailing ones. Only the inner ones are kept (`SplitTokens`,
  `SplitExamplesTrailing`). A token such as `a=` therefore has no part 1, and it throws.
- **Missing scripts and script errors.** The documentation says a missing script or a
  script evaluation error propagates as an action failure. The code catches
  FileNotFoundException and ScriptException in the inner handler. It notifies
  `failed`, returns an empty queue and throws nothing (`FailuresSorted`).
- **A null configuration.** The null-configuration branch of `execute` cannot be
  reached through the constructor, which dereferences the configuration. The model
  still covers it: `configuration` is a nullable field and `Execute` handles `null`.

## Model

| member | source | states |
|---|---|---|
| JmxServiceManagers.ParamTable.Remove | src/services/jmx/src/main/java/it/geosolutions/geobatch/services/jmx/JMXServiceManager.java:179 | `Map.remove` returns the old value, or null when the key is absent; afterwards the key is gone and nothing else changed |
| JmxServiceManagers.JmxServiceManager.CallAction | src/services/jmx/src/main/java/it/geosolutions/geobatch/services/jmx/JMXServiceManager.java:178-198 | a missing or empty serviceId is refused first, with only that key removed and the flow manager untouched; then a missing or empty input is refused, with both keys removed and the flow manager untouched; otherwise the launch of `Launched` happens for the remaining entries and exactly one FILE_ADDED event for the input path |
| JmxServiceManagers.JmxServiceManager.CallActionFor | src/services/jmx/src/main/java/it/geosolutions/geobatch/services/jmx/JMXServiceManager.java:200-289 | an unknown bean or a bean without a configuration factory is refused with the flow manager untouched; otherwise one new consumer holds exactly the one bound action, with preserveInput set, fed the events in order; it is submitted once and its id returned; every other consumer is unchanged |
| JmxServiceManagers.JmxServiceManager.Launch | src/services/jmx/src/main/java/it/geosolutions/geobatch/services/jmx/JMXServiceManager.java:277-286 | the synchronized block: the consumer is registered, fed every queued event in queue order, and submitted once |
| JmxServiceManagers.JmxServiceManager.GetStatus | src/services/jmx/src/main/java/it/geosolutions/geobatch/services/jmx/JMXServiceManager.java:171-173 | Unknown exactly for an id the registry does not hold, and otherwise the consumer's own status |
| JmxServiceManagers.JmxServiceManager.DisposeAction | src/services/jmx/src/main/java/it/geosolutions/geobatch/services/jmx/JMXServiceManager.java:158-160 | afterwards the id's status is Unknown; only that consumer leaves the registry; an unknown id changes nothing |
| JmxServiceManagers.ToConsumerStatus | src/services/jmx/src/main/java/it/geosolutions/geobatch/services/jmx/JMXServiceManager.java:172 | the status maps to Unknown exactly when the flow manager returned null |
| JmxServiceManagers.BoundConfigDirIsWorkingDir | src/services/jmx/src/main/java/it/geosolutions/geobatch/services/jmx/JMXServiceManager.java:215-228 | configDir is set after binding, so the bound configuration's configDir is the manager's directory whatever the request says, and the base properties keep their shape |
| JmxServiceManagers.BoundServiceId | src/services/jmx/src/main/java/it/geosolutions/geobatch/services/jmx/JMXServiceManager.java:215-227 | serviceID is set before binding: it is the requested service unless a `serviceID` entry overrides it |
| JmxServiceManagers.ReservedKeysNotBound | src/services/jmx/src/main/java/it/geosolutions/geobatch/services/jmx/JMXServiceManager.java:179-190 | the reserved keys are removed before binding, so a property named like one keeps its initial value |
| JmxServiceManagers.BoundIdentity | src/services/jmx/src/main/java/it/geosolutions/geobatch/services/jmx/JMXServiceManager.java:213-227 | without entries for them, the bound configuration keeps the generated id, NAME, DESC and failIgnored false |
| ActionConfigurations.ActionConfiguration.SetServiceId | src/services/jmx/src/main/java/it/geosolutions/geobatch/services/jmx/JMXServiceManager.java:215 | the serviceID property holds the requested service and no other property changes |
| ActionConfigurations.ActionConfiguration.SetConfigDir | src/services/jmx/src/main/java/it/geosolutions/geobatch/services/jmx/JMXServiceManager.java:228 | the configDir property holds the manager's directory and no other property changes |
| BeanBinding.SmartCopy | src/services/jmx/src/main/java/it/geosolutions/geobatch/services/jmx/JMXServiceManager.java:291-345 | a key with no property descriptor returns normally and leaves the bean unchanged; otherwise only the named property changes, as `Copied` says, and the call throws exactly when `Copied` fails |
| BeanBinding.CopyItems | src/services/jmx/src/main/java/it/geosolutions/geobatch/services/jmx/JMXServiceManager.java:303-318 | a live collection is replaced by the tokens of `value.split(",")` in order; a null one stays null |
| BeanBinding.CopyEntries | src/services/jmx/src/main/java/it/geosolutions/geobatch/services/jmx/JMXServiceManager.java:319-335 | a live map is cleared and gets the pairs of the `;`-tokens in order; the first token without a part 1 throws, with the earlier pairs already put; a null map stays null |
| BeanBinding.BindAll | src/services/jmx/src/main/java/it/geosolutions/geobatch/services/jmx/JMXServiceManager.java:216-227 | every key is bound once, an exception from one key not stopping the rest; the result is `BoundFields`, whatever order the keys come in |
| BeanBinding.CollectionBinding | src/services/jmx/src/main/java/it/geosolutions/geobatch/services/jmx/JMXServiceManager.java:303-318 | a bound collection holds the leading separator-free pieces of the value, in order, nothing throws; for a value not ending in `,` there is one token per piece and they join back to the value |
| BeanBinding.NullPropertyUnchanged | src/services/jmx/src/main/java/it/geosolutions/geobatch/services/jmx/JMXServiceManager.java:303-327 | a null collection or map property is left null: the fresh object is never stored back |
| BeanBinding.MapBindingWellFormed | src/services/jmx/src/main/java/it/geosolutions/geobatch/services/jmx/JMXServiceManager.java:319-335 | with every token a pair, nothing throws, the old entries are gone, the keys are exactly the tokens' keys, and a key holds the value of its last token |
| BeanBinding.MapBindingMalformed | src/services/jmx/src/main/java/it/geosolutions/geobatch/services/jmx/JMXServiceManager.java:331-334 | a token without a part 1 throws, naming the first such token, and the map holds exactly the pairs before it |
| BeanBinding.ScalarBinding | src/services/jmx/src/main/java/it/geosolutions/geobatch/services/jmx/JMXServiceManager.java:336-344 | a writable String property takes the value; a writable property of another type throws and keeps its value; a read-only one is skipped without error |
| BeanBinding.BindingKeepsSchema | src/services/jmx/src/main/java/it/geosolutions/geobatch/services/jmx/JMXServiceManager.java:216-227 | binding never adds or removes a property and never changes a property's kind or writability |
| BeanBinding.UnnamedPropertiesUnchanged | src/services/jmx/src/main/java/it/geosolutions/geobatch/services/jmx/JMXServiceManager.java:216-227 | a property that no request key names keeps its value |
| BeanBinding.PutPairsStopsAtFirstMalformed | src/services/jmx/src/main/java/it/geosolutions/geobatch/services/jmx/JMXServiceManager.java:331-334 | the pairs before the first malformed token are all put, and then the malformed token throws |
| BeanBinding.PutPairsFailureSticks | src/services/jmx/src/main/java/it/geosolutions/geobatch/services/jmx/JMXServiceManager.java:331-334 | once a token has thrown, no later token is put |
| BeanBinding.PutPairsKeys | src/services/jmx/src/main/java/it/geosolutions/geobatch/services/jmx/JMXServiceManager.java:331-334 | with well-formed tokens the keys are the old keys plus one per token |
| BeanBinding.PutPairsLastWins | src/services/jmx/src/main/java/it/geosolutions/geobatch/services/jmx/JMXServiceManager.java:331-334 | a later duplicate key overwrites an earlier one |
| BeanBinding.PutPairsUntouched | src/services/jmx/src/main/java/it/geosolutions/geobatch/services/jmx/JMXServiceManager.java:331-334 | a key no token names keeps its value |
| JavaStrings.SplitTokens | src/services/jmx/src/main/java/it/geosolutions/geobatch/services/jmx/JMXServiceManager.java:314 | split's tokens hold no separator and are the leading pieces of the string in order; only empty pieces are dropped, and the last token is not empty when a separator occurred |
| JavaStrings.Split | src/services/jmx/src/main/java/it/geosolutions/geobatch/services/jmx/JMXServiceManager.java:314-332 | `split` with limit 0 gives the leading pieces of the value in order, drops only empty pieces, and no token holds the separator |
| JavaStrings.SplitKeepsInnerEmptyTokens | src/services/jmx/src/main/java/it/geosolutions/geobatch/services/jmx/JMXServiceManager.java:314 | a value not ending in the separator splits into all its pieces, inner empty tokens included: one more than the number of separators |
| JavaStrings.SplitRebuilds | src/services/jmx/src/main/java/it/geosolutions/geobatch/services/jmx/JMXServiceManager.java:314-332 | the tokens joined with the separator, followed by the separators of the dropped trailing pieces, give back the original string |
| JavaStrings.PiecesOfJoin | src/services/jmx/src/main/java/it/geosolutions/geobatch/services/jmx/JMXServiceManager.java:314 | splitting a join of separator-free pieces gives back those pieces |
| JavaStrings.JoinPieces | src/services/jmx/src/main/java/it/geosolutions/geobatch/services/jmx/JMXServiceManager.java:314 | joining the pieces of a string gives back the string |
| JavaStrings.SplitExamplesEmpty | src/services/jmx/src/main/java/it/geosolutions/geobatch/services/jmx/JMXServiceManager.java:314 | `"".split(",")` is one empty token; `",".split(",")` is no token |
| JavaStrings.SplitExamplesInner | src/services/jmx/src/main/java/it/geosolutions/geobatch/services/jmx/JMXServiceManager.java:314 | `"a,,b".split(",")` keeps the inner empty token |
| JavaStrings.SplitExamplesTrailing | src/services/jmx/src/main/java/it/geosolutions/geobatch/services/jmx/JMXServiceManager.java:314 | `"a,b,,".split(",")` drops the trailing empty tokens |
| JavaStrings.SplitExamplesPair | src/services/jmx/src/main/java/it/geosolutions/geobatch/services/jmx/JMXServiceManager.java:332-333 | `"a=b=c"` splits into three parts, so part 1 is `b`; a token without `=` is one part |
| JavaStrings.SplitExamplesMissingPart | src/services/jmx/src/main/java/it/geosolutions/geobatch/services/jmx/JMXServiceManager.java:332-333 | `"a="` has no part 1; `"=b"` has an empty key |
| JavaStrings.IndexOf | src/gb-actions/scripting/src/main/java/it/geosolutions/geobatch/action/scripting/ScriptingAction.java:109 | `indexOf` is -1 exactly when the substring occurs nowhere, and otherwise is its first occurrence |
| JavaFiles.LastIndexOf | src/gb-actions/scripting/src/main/java/it/geosolutions/geobatch/action/scripting/ScriptingAction.java:88 | the last position of the character, or -1 when it does not occur |
| JavaFiles.ModuleFolder | src/gb-actions/scripting/src/main/java/it/geosolutions/geobatch/action/scripting/ScriptingAction.java:88 | the `jars` child of the script's parent, made absolute; what it is is proved in `ModuleFolderBesideScript` |
| JavaFiles.ModuleFolderBesideScript | src/gb-actions/scripting/src/main/java/it/geosolutions/geobatch/action/scripting/ScriptingAction.java:87-97 | the module folder is absolute, named `jars`, and its parent is the script's directory made absolute |
| JavaFiles.ModuleFolderIsResolved | src/gb-actions/scripting/src/main/java/it/geosolutions/geobatch/action/scripting/ScriptingAction.java:88 | the module folder is `jars` resolved against the script's absolute directory |
| JavaFiles.ResolveChildOfDirectory | src/gb-actions/scripting/src/main/java/it/geosolutions/geobatch/action/scripting/ScriptingAction.java:88-96 | a child resolved against an absolute directory has that directory as parent and the child as name |
| ScriptingActions.SystemClassLoader.AddFile | src/gb-actions/scripting/src/main/java/it/geosolutions/geobatch/action/scripting/ScriptingAction.java:192-207 | the call fails exactly for a rejected path; otherwise the URL is appended unless it is already there, so no URL is listed twice |
| ScriptingActions.JarCandidatesExactly | src/gb-actions/scripting/src/main/java/it/geosolutions/geobatch/action/scripting/ScriptingAction.java:103-122 | the module files the loop adds are exactly the listed names ending in `.jar` that do not occur in the class path string, resolved in the folder |
| ScriptingActions.AddAllEffect | src/gb-actions/scripting/src/main/java/it/geosolutions/geobatch/action/scripting/ScriptingAction.java:103-122 | adding paths one by one keeps the old URLs in front, lists none twice, and ends with exactly the old URLs plus the paths that were not rejected; one failure does not stop the rest |
| ScriptingActions.LoadedAfterEffect | src/gb-actions/scripting/src/main/java/it/geosolutions/geobatch/action/scripting/ScriptingAction.java:87-122 | after loading, the class path holds exactly the old URLs, the script's directory unless it was rejected, the module folder only if both went in, and every module jar that was not rejected |
| ScriptingActions.FoldersAdded | src/gb-actions/scripting/src/main/java/it/geosolutions/geobatch/action/scripting/ScriptingAction.java:95-101 | the folder step adds the directory and then, only if that succeeded, the folder |
| ScriptingActions.NonNullExactly | src/gb-actions/scripting/src/main/java/it/geosolutions/geobatch/action/scripting/ScriptingAction.java:151-158 | every non-null returned path is kept as often as it was returned; nulls are dropped |
| ScriptingActions.TranslateIsAddedEvents | src/gb-actions/scripting/src/main/java/it/geosolutions/geobatch/action/scripting/ScriptingAction.java:151-158 | the output events are the non-null paths, position by position, each FILE_ADDED |
| ScriptingActions.ForwardEvents | src/gb-actions/scripting/src/main/java/it/geosolutions/geobatch/action/scripting/ScriptingAction.java:151-158 | the forwarding loop returns the translated output, every event FILE_ADDED |
| ScriptingActions.RunNotifiesOnce | src/gb-actions/scripting/src/main/java/it/geosolutions/geobatch/action/scripting/ScriptingAction.java:67-185 | a run starts with `started` and ends with exactly one terminal notification: `completed` when it finished, `failed` with the cause otherwise |
| ScriptingActions.FailuresSorted | src/gb-actions/scripting/src/main/java/it/geosolutions/geobatch/action/scripting/ScriptingAction.java:161-180 | only FileNotFoundException and ScriptException are swallowed; every other failure is rethrown, and a failure rethrown after the input was cleared is the NullPointerException of a null returned list |
| ScriptingActions.EmptyInputRaises | src/gb-actions/scripting/src/main/java/it/geosolutions/geobatch/action/scripting/ScriptingAction.java:143-180 | an empty input queue throws a NullPointerException once the entry call is reached |
| ScriptingActions.SingleUse | src/gb-actions/scripting/src/main/java/it/geosolutions/geobatch/action/scripting/ScriptingAction.java:181-184 | with the engine released, a later run never completes: a readable script ends in a NullPointerException |
| ScriptingActions.ScriptingAction.constructor | src/gb-actions/scripting/src/main/java/it/geosolutions/geobatch/action/scripting/ScriptingAction.java:57-61 | the action keeps its configuration and the engine found for it; its base action has the configuration's id, name, description and failIgnored, no running context or temporary directory, and no listeners |
| ScriptingActions.ScriptingAction.Execute | src/gb-actions/scripting/src/main/java/it/geosolutions/geobatch/action/scripting/ScriptingAction.java:67-185 | the result, the input queue, the notifications and the class path are those of `EndingOf`, `TraceOf` and `LoadedAfter` for the configuration, the file system and the engine; the engine and factory are released whatever happens |
| ScriptingActions.ScriptingAction.RunWithConfiguration | src/gb-actions/scripting/src/main/java/it/geosolutions/geobatch/action/scripting/ScriptingAction.java:82-185 | past the configuration check: the loading task is notified, and a missing script file fails with a NullPointerException |
| ScriptingActions.ScriptingAction.RunConfigured | src/gb-actions/scripting/src/main/java/it/geosolutions/geobatch/action/scripting/ScriptingAction.java:87-171 | class loading and then the script run, for one script file |
| ScriptingActions.ScriptingAction.EvaluateScript | src/gb-actions/scripting/src/main/java/it/geosolutions/geobatch/action/scripting/ScriptingAction.java:126-184 | the evaluating task is notified, a rethrown failure is notified as `failed`, and the engine and factory are released |
| ScriptingActions.ScriptingAction.LoadModules | src/gb-actions/scripting/src/main/java/it/geosolutions/geobatch/action/scripting/ScriptingAction.java:87-122 | the class path afterwards is `LoadedAfter` of the old one |
| ScriptingActions.ScriptingAction.AddModules | src/gb-actions/scripting/src/main/java/it/geosolutions/geobatch/action/scripting/ScriptingAction.java:103-122 | the loop adds exactly the module jars of the listing, in listing order |
| ScriptingActions.ScriptingAction.RunScript | src/gb-actions/scripting/src/main/java/it/geosolutions/geobatch/action/scripting/ScriptingAction.java:128-169 | the inner try block: its ending, its notifications and the input queue; the engine evaluates the script once with the input and running context, and the entry function gets the configuration, the absolute path of the head event (peeked, not removed) and the forwarder |
| BaseActions.BaseAction.constructor | src/core/model/src/main/java/it/geosolutions/geobatch/flow/event/action/BaseAction.java:75-79 | id, name and description are stored, failIgnored is false, and the listener set is empty |
| BaseActions.BaseAction.FromConfiguration | src/core/model/src/main/java/it/geosolutions/geobatch/flow/event/action/BaseAction.java:81-88 | id, name, description and failIgnored are copied from the configuration |
| BaseActions.BaseAction.GetRunningContext | src/core/model/src/main/java/it/geosolutions/geobatch/flow/event/action/BaseAction.java:93-95 | the running context last set, none after construction; read back in `SetRunningContext` |
| BaseActions.BaseAction.GetTempDir | src/core/model/src/main/java/it/geosolutions/geobatch/flow/event/action/BaseAction.java:104-106 | the temporary directory last set, none after construction; read back in `SetTempDir` |
| BaseActions.BaseAction.IsFailIgnored | src/core/model/src/main/java/it/geosolutions/geobatch/flow/event/action/BaseAction.java:139-141 | the flag last set, or the one the constructor chose; read back in `SetFailIgnored` |
| BaseActions.BaseAction.GetListeners | src/core/model/src/main/java/it/geosolutions/geobatch/flow/event/action/BaseAction.java:158-160 | the forwarder's registered listeners, in registration order |
| BaseActions.BaseAction.SetRunningContext | src/core/model/src/main/java/it/geosolutions/geobatch/flow/event/action/BaseAction.java:93-102 | the getter returns what was set; the other fields are unchanged |
| BaseActions.BaseAction.SetTempDir | src/core/model/src/main/java/it/geosolutions/geobatch/flow/event/action/BaseAction.java:104-110 | the getter returns what was set; the other fields are unchanged |
| BaseActions.BaseAction.SetFailIgnored | src/core/model/src/main/java/it/geosolutions/geobatch/flow/event/action/BaseAction.java:139-148 | the getter returns what was set; the other fields are unchanged |
| BaseActions.BaseAction.IsPaused | src/core/model/src/main/java/it/geosolutions/geobatch/flow/event/action/BaseAction.java:115-117 | the action is never paused |
| BaseActions.BaseAction.Pause | src/core/model/src/main/java/it/geosolutions/geobatch/flow/event/action/BaseAction.java:119-123 | the pause request is refused |
| BaseActions.BaseAction.PauseSub | src/core/model/src/main/java/it/geosolutions/geobatch/flow/event/action/BaseAction.java:125-129 | the pause request is refused whatever `sub` says |
| BaseActions.BaseAction.Destroy | src/core/model/src/main/java/it/geosolutions/geobatch/flow/event/action/BaseAction.java:112-113 | nothing changes |
| BaseActions.BaseAction.Resume | src/core/model/src/main/java/it/geosolutions/geobatch/flow/event/action/BaseAction.java:131-134 | nothing changes |
| BaseActions.BaseAction.AddListener | src/core/model/src/main/java/it/geosolutions/geobatch/flow/event/action/BaseAction.java:154-156 | the forwarder's listeners gain the listener at the end; nothing is notified |
| BaseActions.BaseAction.RemoveListener | src/core/model/src/main/java/it/geosolutions/geobatch/flow/event/action/BaseAction.java:150-152 | the forwarder drops the first registration of the listener; nothing is notified |
| BaseActions.BaseAction.GetListenersOf | src/core/model/src/main/java/it/geosolutions/geobatch/flow/event/action/BaseAction.java:162-172 | the result is exactly the registered listeners assignable to the class, in registration order, a subsequence of `getListeners()`; the listener set is not modified |
| BaseActions.AssignableToCounts | src/core/model/src/main/java/it/geosolutions/geobatch/flow/event/action/BaseAction.java:162-172 | the filter keeps every assignable listener as often as it is registered, and no other |
| BaseActions.AssignableToMembers | src/core/model/src/main/java/it/geosolutions/geobatch/flow/event/action/BaseAction.java:162-172 | a listener is in the result exactly when it is registered and assignable to the class |
| BaseActions.AssignableToSubsequence | src/core/model/src/main/java/it/geosolutions/geobatch/flow/event/action/BaseAction.java:162-172 | the result keeps the registration order |
| Progress.RemoveFirstEffect | src/core/model/src/main/java/it/geosolutions/geobatch/flow/event/action/BaseAction.java:150-152 | removing a registered listener drops exactly one registration; removing an unknown one changes nothing |

## Left out

- The `JMXServiceManager` constructor (lines 101-147): the catalog lookup, the directory checks and `mkdir` are I/O. The model's constructor takes the flow manager and its working directory as found.
- The Spring `getBean` lookup and the reflection over `canCreateAction` (lines 203-214) become a table from bean name to configuration class. A bean that is not an ActionService, a class without the (String, String, String) constructor, and a failing `newInstance` are not modelled. A missing bean is modelled as a refusal.
- The random UUIDs of the new configuration and consumer are parameters. The consumer id is required not to be registered already.
- The thread pool and the `synchronized` monitor: registration, feeding and submission are one sequential step, and the consumer's own run is not modelled.
- `FileBasedEventConsumer`, `FileBasedFlowManager`, `ProgressListenerForwarder` and the action-manager interface are not part of this model, and their behaviour is assumed:
  - a new consumer starts Idle; `consume` appends to its input; `disposeConsumer` removes it from the registry;
  - the forwarder keeps its listeners as a list: `addListener` appends at the end, `removeListener` drops the first equal entry, and every notification is passed on in call order (the log `notifications`);
  - the management status maps name for name;
  - the reserved keys are `serviceId` and `input`.
- BeanBinding.SmartCopy: a writable scalar accepts the value only when it is declared String. A scalar declared as a supertype of String (`Object`, `CharSequence`) would accept it in the system, but here it throws a type mismatch, because the model's properties carry no declared type beyond their kind. Write-only properties and indexed or nested property names are left out.
- `javax.script`: the engine is an oracle with a fixed evaluation outcome and entry-call result. What a script does to `eventList` or to the progress listeners is not modelled. Neither is a returned list holding a non-String (its ClassCastException). `getEngineByName` is a constructor parameter.
- `addFile`'s reflective `addURL` call becomes a set of paths whose addition fails. URLs are modelled as the absolute path strings. `toURI` forms and path normalisation (`.`, `..`, repeated `/`) are left out.
- Only Unix paths are modelled.
- The `java.class.path` property and the file system are parameters of `Execute`, read once.
- Null values in the request table are not modelled: a table entry is always a string. In the system a null value clears a live collection or map property and then throws at `value.split`, leaving it empty, and a String property stores null.
- Set-typed properties are not modelled: every Collection property is an ordered list that keeps duplicates, whereas a Set property would drop duplicates and lose the token order.
- The class-loader cast in `addFile` is not modelled. When the system class loader is not a URLClassLoader, the ClassCastException escapes the IOException handlers and the run ends as failed with an ActionException. In the model `addFile` can only fail with the logged IOException.
- ScriptingActions.ScriptingAction.Execute: requires a launch class path that lists no URL twice (`SystemClassLoader.Valid`). The JVM does not guarantee this, and a class path with duplicates is not covered.
- Logging, the JMX and Spring annotations, and the messages of thrown exceptions.
