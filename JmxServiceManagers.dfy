/**
  The JMX management service: turns a request, a string-keyed parameter table, into a
  live consumer run on the shared "JMX_FLOW_MANAGER" flow, and answers status and
  dispose requests about the consumers it started.

  The Spring application context becomes `context`, a table from bean name to what the
  reflective lookup finds in that bean: the own properties of the configuration class
  that its `canCreateAction` method takes, or nothing when it has no such method. The
  random UUIDs of the new action configuration and of the new consumer are parameters.
*/
module JmxServiceManagers {
  import opened Wrappers
  import opened Events
  import opened ActionConfigurations
  import opened BeanBinding
  import opened FlowManagers

  const FLOW_MANAGER_ID := "JMX_FLOW_MANAGER"
  /** The reserved request keys (constants of the action-manager interface). */
  const SERVICE_ID_KEY := "serviceId"
  const INPUT_KEY := "input"
  /** The fixed id, name and description of what a request builds. */
  const CONSUMER_CONFIGURATION_ID := "JMX_Consumer_id"
  const ACTION_NAME := "NAME"
  const ACTION_DESCRIPTION := "DESC"

  /** The status the management interface reports: a consumer status, or Unknown. */
  datatype ConsumerStatus = Idle | Waiting | Executing | Completed | Failed | Canceled | Paused | Unknown

  /** `ConsumerStatus.getStatus`: the same-named status, and Unknown for null. */
  function ToConsumerStatus(s: Option<EventConsumerStatus>): (r: ConsumerStatus)
    ensures r == Unknown <==> s.None?
  {
    match s
    case None => Unknown
    case Some(Idle) => ConsumerStatus.Idle
    case Some(Waiting) => ConsumerStatus.Waiting
    case Some(Executing) => ConsumerStatus.Executing
    case Some(Completed) => ConsumerStatus.Completed
    case Some(Failed) => ConsumerStatus.Failed
    case Some(Canceled) => ConsumerStatus.Canceled
    case Some(Paused) => ConsumerStatus.Paused
  }

  /** A named bean of the application context, as the reflective lookup sees it. */
  datatype ServiceBean = ServiceBean(configurationClass: Option<map<string, Field>>)

  /** Why a request is refused (each an exception thrown to the JMX caller). */
  datatype ManagerError =
    | MissingServiceId        // IllegalArgumentException: no usable serviceId entry
    | MissingInput            // IllegalArgumentException: no usable input entry
    | NoSuchBean(name: string)  // the context has no bean of that name
    | NoConfiguration         // IllegalArgumentException: "Unable to locate the configuration"

  /** A request entry that is there and not empty. */
  predicate Usable(entries: map<string, string>, key: string)
  {
    key in entries && entries[key] != ""
  }

  /**
    The properties of the action configuration a request builds: a fresh configuration
    of the service's class, its serviceID set, every remaining request entry bound best
    effort, and its configDir forced to the manager's working directory.
  */
  function BoundConfiguration(own: map<string, Field>, actionId: string, serviceId: string,
                              params: map<string, string>, configDir: string): map<string, Field>
  {
    var created := own + BaseProperties(actionId, ACTION_NAME, ACTION_DESCRIPTION);
    var bound := BoundFields(created[SERVICE_ID_PROPERTY := Text(true, Some(serviceId))], params);
    bound[CONFIG_DIR_PROPERTY := FileRef(true, Some(configDir))]
  }

  /** The caller's parameter table, which the service edits in place. */
  class ParamTable {
    var entries: map<string, string>

    constructor (entries: map<string, string>)
      ensures this.entries == entries
    {
      this.entries := entries;
    }

    /** `Map.remove`: the value the key had (null when absent); the key is gone. */
    method Remove(key: string) returns (v: Option<string>)
      modifies this
      ensures v == if key in old(entries) then Some(old(entries)[key]) else None
      ensures entries == old(entries) - {key}
    {
      v := if key in entries then Some(entries[key]) else None;
      entries := entries - {key};
    }
  }

  class JmxServiceManager {
    const flowManager: FlowManager
    /** The flow's working directory. */
    const configDir: string
    const context: map<string, ServiceBean>

    /** The service once its flow manager and working directory have been found or created. */
    constructor (flowManager: FlowManager, configDir: string, context: map<string, ServiceBean>)
      ensures this.flowManager == flowManager && this.configDir == configDir && this.context == context
    {
      this.flowManager := flowManager;
      this.configDir := configDir;
      this.context := context;
    }

    /** `getStatus(uuid)`: Unknown exactly for an id the registry does not hold. */
    function GetStatus(uuid: string): (r: ConsumerStatus)
      reads this, flowManager
      ensures r == Unknown <==> uuid !in flowManager.consumers
      ensures uuid in flowManager.consumers ==> r == ToConsumerStatus(Some(flowManager.consumers[uuid].status))
    {
      ToConsumerStatus(flowManager.StatusOf(uuid))
    }

    /** `disposeAction(uuid)`: afterwards the id is unknown; disposing an unknown id changes nothing. */
    method DisposeAction(uuid: string)
      modifies flowManager
      ensures GetStatus(uuid) == Unknown
      ensures flowManager.consumers == old(flowManager.consumers) - {uuid}
      ensures uuid !in old(flowManager.consumers) ==> flowManager.consumers == old(flowManager.consumers)
      ensures flowManager.submitted == old(flowManager.submitted)
    {
      flowManager.DisposeConsumer(uuid);
    }

    /**
      `callAction(config)`: the service id is checked first and the input second, each
      entry being removed from the caller's table as it is read; the input path becomes
      one FILE_ADDED event and the rest of the table configures the action.
      `keyOrder` is the order in which the table's key set iterates the remaining keys.
    */
    method CallAction(request: ParamTable, keyOrder: seq<string>, actionId: string, consumerId: string)
      returns (r: Result<string, ManagerError>)
      requires consumerId !in flowManager.consumers
      requires Enumerates(keyOrder, request.entries.Keys - {SERVICE_ID_KEY, INPUT_KEY})
      modifies request, flowManager
      ensures !Usable(old(request.entries), SERVICE_ID_KEY) ==>
        && r == Failure(MissingServiceId)
        && request.entries == old(request.entries) - {SERVICE_ID_KEY}
        && unchanged(flowManager)
      ensures Usable(old(request.entries), SERVICE_ID_KEY) ==>
        request.entries == old(request.entries) - {SERVICE_ID_KEY, INPUT_KEY}
      ensures Usable(old(request.entries), SERVICE_ID_KEY) && !Usable(old(request.entries), INPUT_KEY) ==>
        r == Failure(MissingInput) && unchanged(flowManager)
      ensures Usable(old(request.entries), SERVICE_ID_KEY) && Usable(old(request.entries), INPUT_KEY) ==>
        var serviceId := old(request.entries)[SERVICE_ID_KEY];
        Launched(old(flowManager.consumers), old(flowManager.submitted), serviceId, request.entries,
                 [FileEvent(old(request.entries)[INPUT_KEY], FileAdded)], actionId, consumerId, r)
    {
      var serviceId := request.Remove(SERVICE_ID_KEY);
      if serviceId.None? || serviceId.value == "" {
        return Failure(MissingServiceId);
      }
      var input := request.Remove(INPUT_KEY);
      if input.None? || input.value == "" {
        return Failure(MissingInput);
      }
      var events := new EventQueue([]);
      events.Add(FileEvent(input.value, FileAdded));
      r := CallActionFor(serviceId.value, request.entries, events, keyOrder, actionId, consumerId);
    }

    /**
      What the private `callAction` promises: an unknown bean or a bean without a
      configuration factory is refused with the flow manager untouched; otherwise one
      new consumer is registered under `consumerId`, holding exactly one action whose
      properties are the bound configuration, fed `events` in order, with its input
      preserved; it is submitted once and its id returned; no other consumer changes.
    */
    ghost predicate Launched(consumers0: map<string, Consumer>, submitted0: seq<string>, serviceId: string,
                             params: map<string, string>, events: seq<FileEvent>, actionId: string,
                             consumerId: string, r: Result<string, ManagerError>)
      reads this, flowManager, if consumerId in flowManager.consumers then (set a | a in flowManager.consumers[consumerId].configuration.actions) else {}
    {
      if serviceId !in context then
        r == Failure(NoSuchBean(serviceId)) && flowManager.consumers == consumers0 && flowManager.submitted == submitted0
      else if context[serviceId].configurationClass.None? then
        r == Failure(NoConfiguration) && flowManager.consumers == consumers0 && flowManager.submitted == submitted0
      else
        && r == Success(consumerId)
        && flowManager.submitted == submitted0 + [consumerId]
        && flowManager.consumers.Keys == consumers0.Keys + {consumerId}
        && (forall id :: id in consumers0 ==> flowManager.consumers[id] == consumers0[id])
        && var c := flowManager.consumers[consumerId];
           && c.status == EventConsumerStatus.Idle
           && c.events == events
           && c.configuration.id == CONSUMER_CONFIGURATION_ID
           && c.configuration.preserveInput
           && |c.configuration.actions| == 1
           && c.configuration.actions[0].fields
              == BoundConfiguration(context[serviceId].configurationClass.value, actionId, serviceId, params, configDir)
    }

    /** The private `callAction(serviceId, config, events)`; the register, feed and submit steps run as one. */
    method CallActionFor(serviceId: string, params: map<string, string>, events: EventQueue,
                         keyOrder: seq<string>, actionId: string, consumerId: string)
      returns (r: Result<string, ManagerError>)
      requires consumerId !in flowManager.consumers
      requires Enumerates(keyOrder, params.Keys)
      modifies flowManager
      ensures Launched(old(flowManager.consumers), old(flowManager.submitted), serviceId, params, events.items,
                       actionId, consumerId, r)
      ensures r.Success? ==> fresh(flowManager.consumers[consumerId].configuration.actions[0])
    {
      if serviceId !in context {
        return Failure(NoSuchBean(serviceId));
      }
      var factory := context[serviceId].configurationClass;
      if factory.None? {
        return Failure(NoConfiguration);
      }
      var actionConfig := new ActionConfiguration(actionId, ACTION_NAME, ACTION_DESCRIPTION, factory.value);
      actionConfig.SetServiceId(serviceId);
      ghost var preBinding := actionConfig.fields;
      BindAll(actionConfig, params, keyOrder);
      BindingKeepsSchema(preBinding, params);
      actionConfig.SetConfigDir(configDir);
      ghost var bound := BoundConfiguration(factory.value, actionId, serviceId, params, configDir);
      assert actionConfig.fields == bound;

      var consumerConfig := ConsumerConfiguration(CONSUMER_CONFIGURATION_ID, [actionConfig], true);
      Launch(consumerId, consumerConfig, events);
      assert actionConfig.fields == bound;
      r := Success(consumerId);
    }

    /**
      The synchronized block: the new consumer is registered, fed every event of the
      queue in order and submitted, as one step.
    */
    method Launch(consumerId: string, consumerConfig: ConsumerConfiguration, events: EventQueue)
      modifies flowManager
      ensures flowManager.consumers == old(flowManager.consumers)[consumerId := Consumer(consumerConfig, events.items, EventConsumerStatus.Idle)]
      ensures flowManager.submitted == old(flowManager.submitted) + [consumerId]
    {
      flowManager.AddConsumer(consumerId, Consumer(consumerConfig, [], EventConsumerStatus.Idle));
      for i := 0 to |events.items|
        invariant flowManager.consumers == old(flowManager.consumers)[consumerId := Consumer(consumerConfig, events.items[..i], EventConsumerStatus.Idle)]
        invariant flowManager.submitted == old(flowManager.submitted)
      {
        flowManager.Consume(consumerId, events.items[i]);
        assert events.items[..i + 1] == events.items[..i] + [events.items[i]];
      }
      assert events.items[..|events.items|] == events.items;
      flowManager.Submit(consumerId);
    }
  }

  // ---------------------------------------------------------------------------
  // What the bound configuration holds.
  // ---------------------------------------------------------------------------

  /**
    The working directory is set after binding, so whatever the request says the bound
    configuration's configDir is the manager's directory, and the configuration keeps
    the shape every ActionConfiguration has.
  */
  lemma BoundConfigDirIsWorkingDir(own: map<string, Field>, actionId: string, serviceId: string,
                                   params: map<string, string>, configDir: string)
    ensures var fields := BoundConfiguration(own, actionId, serviceId, params, configDir);
      && Shaped(fields)
      && fields[CONFIG_DIR_PROPERTY] == FileRef(true, Some(configDir))
  {
    var created := own + BaseProperties(actionId, ACTION_NAME, ACTION_DESCRIPTION);
    BindingKeepsSchema(created[SERVICE_ID_PROPERTY := Text(true, Some(serviceId))], params);
  }

  /**
    The serviceID is set before binding: it is the requested service unless the request
    also carries a `serviceID` entry (a key distinct from the reserved `serviceId`),
    which then overrides it.
  */
  lemma BoundServiceId(own: map<string, Field>, actionId: string, serviceId: string,
                       params: map<string, string>, configDir: string)
    ensures var fields := BoundConfiguration(own, actionId, serviceId, params, configDir);
      fields[SERVICE_ID_PROPERTY] ==
        Text(true, Some(if SERVICE_ID_PROPERTY in params then params[SERVICE_ID_PROPERTY] else serviceId))
  {
  }

  /**
    The reserved keys were removed before binding: after a request whose remaining
    entries are `entries - {serviceId, input}`, a property named like a reserved key
    keeps what the configuration class gave it (`UnnamedPropertiesUnchanged` for the
    remaining entries).
  */
  lemma ReservedKeysNotBound(own: map<string, Field>, actionId: string, serviceId: string,
                             entries: map<string, string>, configDir: string, key: string)
    requires key == SERVICE_ID_KEY || key == INPUT_KEY
    requires key in own
    ensures var fields := BoundConfiguration(own, actionId, serviceId, entries - {SERVICE_ID_KEY, INPUT_KEY}, configDir);
      key in fields && fields[key] == own[key]
  {
  }

  /**
    A request that names no base property leaves the id, name and description the
    service gave the new configuration and fails-not-ignored.
  */
  lemma BoundIdentity(own: map<string, Field>, actionId: string, serviceId: string,
                      params: map<string, string>, configDir: string)
    requires ID_PROPERTY !in params && NAME_PROPERTY !in params && DESCRIPTION_PROPERTY !in params
    requires FAIL_IGNORED_PROPERTY !in params
    ensures var fields := BoundConfiguration(own, actionId, serviceId, params, configDir);
      && fields[ID_PROPERTY] == Text(true, Some(actionId))
      && fields[NAME_PROPERTY] == Text(true, Some(ACTION_NAME))
      && fields[DESCRIPTION_PROPERTY] == Text(true, Some(ACTION_DESCRIPTION))
      && fields[FAIL_IGNORED_PROPERTY] == Flag(true, false)
  {
  }
}
