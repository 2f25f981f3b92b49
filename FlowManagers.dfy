/**
  The part of the file-based flow manager that the management service drives: a
  registry of event consumers by id and the executor that consumers are submitted to.
  The flow manager's and the consumer's own sources are not part of this model; a
  consumer is modelled as the value the registry holds for its id (its configuration,
  the events it has been fed and its status) and the executor as the list of consumer
  ids handed to it, in order.
*/
module FlowManagers {
  import opened Wrappers
  import opened Events
  import opened ActionConfigurations

  /** The lifecycle status of an event consumer. */
  datatype EventConsumerStatus = Idle | Waiting | Executing | Completed | Failed | Canceled | Paused

  /** A file-based event consumer's configuration: its id, its action chain and whether input files are kept. */
  datatype ConsumerConfiguration = ConsumerConfiguration(id: string, actions: seq<ActionConfiguration>, preserveInput: bool)

  /** A registered consumer. */
  datatype Consumer = Consumer(configuration: ConsumerConfiguration, events: seq<FileEvent>, status: EventConsumerStatus)

  class FlowManager {
    /** The consumer registry, by consumer id. */
    var consumers: map<string, Consumer>
    /** The ids of the consumers submitted to the executor, oldest first. */
    var submitted: seq<string>

    constructor ()
      ensures consumers == map[] && submitted == []
    {
      consumers := map[];
      submitted := [];
    }

    /** `addConsumer`: registers `c` under `id`. */
    method AddConsumer(id: string, c: Consumer)
      modifies this
      ensures consumers == old(consumers)[id := c]
      ensures submitted == old(submitted)
    {
      consumers := consumers[id := c];
    }

    /** `consumer.consume(e)` on a registered consumer: `e` joins the tail of its input. */
    method Consume(id: string, e: FileEvent)
      requires id in consumers
      modifies this
      ensures consumers == old(consumers)[id := old(consumers)[id].(events := old(consumers)[id].events + [e])]
      ensures submitted == old(submitted)
    {
      var c := consumers[id];
      consumers := consumers[id := c.(events := c.events + [e])];
    }

    /** `getExecutor().submit(consumer)`. */
    method Submit(id: string)
      modifies this
      ensures submitted == old(submitted) + [id]
      ensures consumers == old(consumers)
    {
      submitted := submitted + [id];
    }

    /** `getStatus(id)`: the registered consumer's status, or null for an id it does not know. */
    function StatusOf(id: string): (r: Option<EventConsumerStatus>)
      reads this
      ensures r.None? <==> id !in consumers
    {
      if id in consumers then Some(consumers[id].status) else None
    }

    /** `disposeConsumer(id)`: the consumer leaves the registry; an unknown id changes nothing. */
    method DisposeConsumer(id: string)
      modifies this
      ensures consumers == old(consumers) - {id}
      ensures id !in old(consumers) ==> consumers == old(consumers)
      ensures submitted == old(submitted)
    {
      consumers := consumers - {id};
    }
  }
}
