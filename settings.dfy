/**
 * The client's configuration: server host, port and start-server mode, kept
 * both as fields and in a `java.util.Properties` table that is loaded from
 * and saved to `config.properties`. The file itself is not modelled: loading
 * receives the table the file held (or that there was none, or that reading
 * failed), and saving returns the table it would write.
 */
module Config {
  import opened JavaText

  /** A `java.util.Properties` table. */
  type Properties = map<string, string>

  const HostKey: string := "server.host"
  const PortKey: string := "server.port"
  const StartKey: string := "server.start"

  const DefaultHost: string := "localhost"
  const DefaultPort: int := 8888
  const DefaultPortText: string := "8888"
  const DefaultStart: bool := false

  /** The three settings the fields hold. */
  datatype ServerConfig = ServerConfig(host: string, port: int, startServer: bool)

  /** The field initialisers, in force before anything is loaded. */
  const Defaults: ServerConfig := ServerConfig(DefaultHost, DefaultPort, DefaultStart)

  /** What `loadProperties` finds: a file's entries, no file at all, or a file it could not read. */
  datatype Source = Found(entries: Properties) | Missing | Unreadable

  /** `Properties.getProperty(key, default)`. */
  function GetProperty(props: Properties, key: string, default: string): (v: string)
    ensures key in props ==> v == props[key]
    ensures key !in props ==> v == default
  {
    if key in props then props[key] else default
  }

  /** `Boolean.parseBoolean`: true exactly for `"true"` in any letter case. */
  predicate ParseBoolean(s: string) {
    EqualsIgnoreCase(s, "true")
  }

  /** `String.valueOf(boolean)`. */
  function BoolToString(b: bool): string {
    if b then "true" else "false"
  }

  /** A written boolean reads back as itself. */
  lemma ParseBooleanOfToString(b: bool)
    ensures ParseBoolean(BoolToString(b)) == b
  {
    assert ToLower("true") == "true";
    if !b {
      assert ToLower("false")[0] == 'f';
    }
  }

  /**
   * The field updates of `loadProperties` from a properties table: the host
   * is read first; when the port does not parse, the `NumberFormatException`
   * skips the port and the mode, which keep their values.
   */
  function LoadConfig(current: ServerConfig, props: Properties): (c: ServerConfig)
    ensures c.host == GetProperty(props, HostKey, DefaultHost)
    ensures IsInt(current.port) ==> IsInt(c.port)
  {
    var host := GetProperty(props, HostKey, DefaultHost);
    var port := ParseInt(GetProperty(props, PortKey, DefaultPortText));
    if port.Some? then ServerConfig(host, port.value, ParseBoolean(GetProperty(props, StartKey, "false")))
    else ServerConfig(host, current.port, current.startServer)
  }

  /** The three `setProperty` calls of `saveSettings`. */
  function SaveProps(props: Properties, c: ServerConfig): (r: Properties)
    ensures r.Keys == props.Keys + {HostKey, PortKey, StartKey}
    ensures forall k :: k in props && k != HostKey && k != PortKey && k != StartKey ==> r[k] == props[k]
  {
    props[HostKey := c.host][PortKey := LongToString(c.port)][StartKey := BoolToString(c.startServer)]
  }

  /** The default port text is the default port. */
  lemma DefaultPortParses()
    ensures ParseInt(DefaultPortText) == Some(DefaultPort)
  {
    assert LongToString(DefaultPort) == DefaultPortText by {
      assert NatToString(8) == "8";
      assert NatToString(88) == "88";
      assert NatToString(888) == "888";
    }
    ParseIntOfLongToString(DefaultPort);
  }

  /** An empty table (no configuration file) yields the defaults, whatever the fields held. */
  lemma LoadEmptyGivesDefaults(current: ServerConfig)
    ensures LoadConfig(current, map[]) == Defaults
  {
    DefaultPortParses();
    assert !ParseBoolean("false") by {
      assert ToLower("false")[0] == 'f';
    }
  }

  /** Each missing key falls back to its default, when the port parses. */
  lemma MissingKeysFallBack(current: ServerConfig, props: Properties)
    requires ParseInt(GetProperty(props, PortKey, DefaultPortText)).Some?
    ensures HostKey !in props ==> LoadConfig(current, props).host == DefaultHost
    ensures PortKey !in props ==> LoadConfig(current, props).port == DefaultPort
    ensures StartKey !in props ==> LoadConfig(current, props).startServer == DefaultStart
  {
    DefaultPortParses();
    assert !ParseBoolean("false") by {
      assert ToLower("false")[0] == 'f';
    }
  }

  /** With a numeric port, the mode is on exactly when `server.start` is `"true"` in any case. */
  lemma StartModeIffTrue(current: ServerConfig, props: Properties)
    requires ParseInt(GetProperty(props, PortKey, DefaultPortText)).Some?
    ensures LoadConfig(current, props).startServer <==> StartKey in props && EqualsIgnoreCase(props[StartKey], "true")
    ensures LoadConfig(current, props).port == ParseInt(GetProperty(props, PortKey, DefaultPortText)).value
  {
    if StartKey !in props {
      assert ToLower("false")[0] == 'f';
      assert ToLower("true")[0] == 't';
    }
  }

  /** A non-numeric port keeps port and mode but still takes the new host. */
  lemma BadPortKeepsPortAndMode(current: ServerConfig, props: Properties)
    requires ParseInt(GetProperty(props, PortKey, DefaultPortText)).None?
    ensures LoadConfig(current, props) == current.(host := GetProperty(props, HostKey, DefaultHost))
  {
  }

  /** Saving and loading back yields the saved settings, whatever the table held and the fields were. */
  lemma SaveLoadRoundTrip(props: Properties, c: ServerConfig, current: ServerConfig)
    requires IsInt(c.port)
    ensures LoadConfig(current, SaveProps(props, c)) == c
  {
    var saved := SaveProps(props, c);
    assert saved[HostKey] == c.host && saved[PortKey] == LongToString(c.port) && saved[StartKey] == BoolToString(c.startServer);
    ParseIntOfLongToString(c.port);
    ParseBooleanOfToString(c.startServer);
  }

  /** A `setProperty` is seen by the next `getProperty` of that key, and by no other key. */
  lemma SetThenGet(props: Properties, key: string, value: string, other: string, default: string)
    ensures GetProperty(props[key := value], key, default) == value
    ensures other != key ==> GetProperty(props[key := value], other, default) == GetProperty(props, other, default)
  {
  }

  class Settings {
    var serverHost: string
    var serverPort: int
    var startServerMode: bool
    var properties: Properties

    /** `serverPort` is a Java `int`. */
    ghost predicate Valid()
      reads this
    {
      IsInt(serverPort)
    }

    /** The fields as one value. */
    function Current(): ServerConfig
      reads this
    {
      ServerConfig(serverHost, serverPort, startServerMode)
    }

    /** The private constructor: the field defaults, an empty table, then `loadProperties`. */
    constructor (source: Source)
      ensures Valid()
      ensures source.Found? ==> properties == source.entries && Current() == LoadConfig(Defaults, source.entries)
      ensures source.Missing? ==> properties == map[] && Current() == Defaults
      ensures source.Unreadable? ==> properties == map[] && Current() == Defaults
    {
      serverHost := DefaultHost;
      serverPort := DefaultPort;
      startServerMode := DefaultStart;
      properties := map[];
      new;
      LoadProperties(source);
      assert map[] + (if source.Found? then source.entries else map[]) == properties;
      LoadEmptyGivesDefaults(Defaults);
    }

    /**
     * `loadProperties` (also `reloadSettings`): a found file's entries are
     * merged into the table, over the old ones; then the fields are read from
     * the table. With no file the table is unchanged but the fields are still
     * read from it. A read error changes nothing.
     */
    method LoadProperties(source: Source)
      requires Valid()
      modifies this
      ensures Valid()
      ensures source.Unreadable? ==> properties == old(properties) && Current() == old(Current())
      ensures !source.Unreadable? ==>
                && properties == old(properties) + (if source.Found? then source.entries else map[])
                && Current() == LoadConfig(old(Current()), properties)
    {
      if source.Unreadable? {
        return;
      }
      if source.Found? {
        properties := properties + source.entries;
      }
      serverHost := GetProperty(properties, HostKey, DefaultHost);
      var port := ParseInt(GetProperty(properties, PortKey, DefaultPortText));
      if port.None? {
        return;
      }
      serverPort := port.value;
      startServerMode := ParseBoolean(GetProperty(properties, StartKey, "false"));
    }

    /**
     * `saveSettings`: the three keys take the fields' values (in memory even
     * when writing fails), and the whole table is what the file receives;
     * `None` when the write fails.
     */
    method SaveSettings(writeFails: bool) returns (written: Option<Properties>)
      requires Valid()
      modifies this
      ensures Valid() && Current() == old(Current())
      ensures properties == SaveProps(old(properties), Current())
      ensures written == if writeFails then None else Some(properties)
    {
      properties := properties[HostKey := serverHost];
      properties := properties[PortKey := LongToString(serverPort)];
      properties := properties[StartKey := BoolToString(startServerMode)];
      if writeFails {
        return None;
      }
      return Some(properties);
    }

    /** `getServerHost` */
    function ServerHost(): string
      reads this
    {
      serverHost
    }

    /** `getServerPort` */
    function ServerPort(): int
      reads this
    {
      serverPort
    }

    /** `isStartServerMode` */
    predicate IsStartServerMode()
      reads this
    {
      startServerMode
    }

    method SetServerHost(host: string)
      requires Valid()
      modifies this
      ensures Valid() && ServerHost() == host
      ensures serverPort == old(serverPort) && startServerMode == old(startServerMode) && properties == old(properties)
    {
      serverHost := host;
    }

    method SetServerPort(port: int)
      requires Valid() && IsInt(port)
      modifies this
      ensures Valid() && ServerPort() == port
      ensures serverHost == old(serverHost) && startServerMode == old(startServerMode) && properties == old(properties)
    {
      serverPort := port;
    }

    method SetStartServerMode(mode: bool)
      requires Valid()
      modifies this
      ensures Valid() && IsStartServerMode() == mode
      ensures serverHost == old(serverHost) && serverPort == old(serverPort) && properties == old(properties)
    {
      startServerMode := mode;
    }

    /** `getProperty`: the stored value, or the default when the key is absent. */
    function Property(key: string, default: string): (v: string)
      reads this
      ensures key in properties ==> v == properties[key]
      ensures key !in properties ==> v == default
    {
      GetProperty(properties, key, default)
    }

    /** `setProperty`: the table takes the entry; the fields are untouched. */
    method SetProperty(key: string, value: string)
      requires Valid()
      modifies this
      ensures Valid() && Current() == old(Current())
      ensures properties == old(properties)[key := value]
      ensures Property(key, "") == value
    {
      properties := properties[key := value];
    }
  }

  /** The static `instance` slot of the singleton. */
  class SettingsSingleton {
    var instance: Settings?

    constructor ()
      ensures instance == null
    {
      instance := null;
    }

    /** `getInstance`: the first call builds the object, every later one returns that same object. */
    method GetInstance(source: Source) returns (s: Settings)
      modifies this
      ensures old(instance) != null ==> s == old(instance)
      ensures old(instance) == null ==> fresh(s) && s.Valid() && s.properties == (if source.Found? then source.entries else map[])
      ensures instance == s
    {
      if instance == null {
        instance := new Settings(source);
      }
      s := instance;
    }
  }
}
