/**
  An action configuration seen as a Java bean: a schema of named properties, each with
  its declared shape and current value. The properties every ActionConfiguration has
  (id, name, description, serviceID, configDir, failIgnored) are always present; a
  concrete configuration class adds its own (a script file, a language, lists, maps...).
*/
module ActionConfigurations {
  import opened Wrappers

  /**
    One bean property. A scalar is `writable` when the bean has a setter for it; only a
    String-typed scalar (`Text`) accepts a string as it is. `Items` is a Collection
    property and `Entries` a Map property; `None` stands for a getter returning null.
  */
  datatype Field =
    | Text(writable: bool, text: Option<string>)
    | Flag(writable: bool, flag: bool)
    | FileRef(writable: bool, file: Option<string>)
    | Items(items: Option<seq<string>>)
    | Entries(entries: Option<map<string, string>>)

  const ID_PROPERTY := "id"
  const NAME_PROPERTY := "name"
  const DESCRIPTION_PROPERTY := "description"
  const SERVICE_ID_PROPERTY := "serviceID"
  const CONFIG_DIR_PROPERTY := "configDir"
  const FAIL_IGNORED_PROPERTY := "failIgnored"

  /** The properties of a freshly constructed ActionConfiguration(id, name, description). */
  function BaseProperties(id: string, name: string, description: string): map<string, Field>
  {
    map[
      ID_PROPERTY := Text(true, Some(id)),
      NAME_PROPERTY := Text(true, Some(name)),
      DESCRIPTION_PROPERTY := Text(true, Some(description)),
      SERVICE_ID_PROPERTY := Text(true, None),
      CONFIG_DIR_PROPERTY := FileRef(true, None),
      FAIL_IGNORED_PROPERTY := Flag(true, false)
    ]
  }

  /** The base properties are present with their declared shapes. */
  ghost predicate Shaped(fields: map<string, Field>)
  {
    && ID_PROPERTY in fields && fields[ID_PROPERTY].Text?
    && NAME_PROPERTY in fields && fields[NAME_PROPERTY].Text?
    && DESCRIPTION_PROPERTY in fields && fields[DESCRIPTION_PROPERTY].Text?
    && SERVICE_ID_PROPERTY in fields && fields[SERVICE_ID_PROPERTY].Text?
    && fields[SERVICE_ID_PROPERTY].writable
    && CONFIG_DIR_PROPERTY in fields && fields[CONFIG_DIR_PROPERTY].FileRef?
    && fields[CONFIG_DIR_PROPERTY].writable
    && FAIL_IGNORED_PROPERTY in fields && fields[FAIL_IGNORED_PROPERTY].Flag?
  }

  class ActionConfiguration {
    var fields: map<string, Field>

    ghost predicate Valid()
      reads this
    {
      Shaped(fields)
    }

    /**
      `new C(id, name, description)` for a configuration class C whose own properties
      are `own`; the base properties take precedence over a same-named one of C.
    */
    constructor (id: string, name: string, description: string, own: map<string, Field>)
      ensures fields == own + BaseProperties(id, name, description)
      ensures Valid()
      ensures Id() == Some(id) && Name() == Some(name) && Description() == Some(description)
      ensures ServiceId() == None && ConfigDir() == None && !FailIgnored()
    {
      fields := own + BaseProperties(id, name, description);
    }

    function Id(): Option<string>
      reads this
      requires Valid()
    {
      fields[ID_PROPERTY].text
    }

    function Name(): Option<string>
      reads this
      requires Valid()
    {
      fields[NAME_PROPERTY].text
    }

    function Description(): Option<string>
      reads this
      requires Valid()
    {
      fields[DESCRIPTION_PROPERTY].text
    }

    function ServiceId(): Option<string>
      reads this
      requires Valid()
    {
      fields[SERVICE_ID_PROPERTY].text
    }

    function ConfigDir(): Option<string>
      reads this
      requires Valid()
    {
      fields[CONFIG_DIR_PROPERTY].file
    }

    function FailIgnored(): bool
      reads this
      requires Valid()
    {
      fields[FAIL_IGNORED_PROPERTY].flag
    }

    /** `setServiceID`: only that property changes. */
    method SetServiceId(serviceId: string)
      requires Valid()
      modifies this
      ensures Valid() && ServiceId() == Some(serviceId)
      ensures fields == old(fields)[SERVICE_ID_PROPERTY := Text(true, Some(serviceId))]
    {
      fields := fields[SERVICE_ID_PROPERTY := Text(true, Some(serviceId))];
    }

    /** `setConfigDir`: only that property changes. */
    method SetConfigDir(dir: string)
      requires Valid()
      modifies this
      ensures Valid() && ConfigDir() == Some(dir)
      ensures fields == old(fields)[CONFIG_DIR_PROPERTY := FileRef(true, Some(dir))]
    {
      fields := fields[CONFIG_DIR_PROPERTY := FileRef(true, Some(dir))];
    }
  }
}
