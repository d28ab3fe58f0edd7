/** CrateConnection: the open/closed state of a JDBC connection, the strict
    flag that decides whether unsupported transactional calls throw, the
    client-info properties, the read-only flag and the default schema. */
module Connection {
  import opened Outcomes
  import opened JavaUtil
  import opened ClientHandles

  /** Stands in for CrateDatabaseMetaData, which is built by querying the
      cluster; the connection only cares whether it holds one. */
  datatype DatabaseMetaData = DatabaseMetaData(productVersion: string)

  /** Stands in for a java.sql.Savepoint; the connection never creates one. */
  datatype Savepoint = Savepoint(name: string)

  /** What strict() reads: Boolean.valueOf(getProperty("strict", "false")). */
  function StrictOf(entries: map<string, string>): bool {
    BooleanValueOf(Some(GetOrDefault(entries, "strict", "false")))
  }

  /** What throwIfStrictMode reads: Boolean.valueOf(getProperty("strict")). */
  function StrictModeOf(entries: map<string, string>): bool {
    BooleanValueOf(Get(entries, "strict"))
  }

  /** Both readings of the "strict" property agree, and an absent key is not strict. */
  lemma StrictReadingsAgree(entries: map<string, string>)
    ensures StrictOf(entries) == StrictModeOf(entries)
    ensures StrictOf(entries) <==> "strict" in entries && BooleanValueOf(Some(entries["strict"]))
  {
    if "strict" !in entries {
      assert !BooleanValueOf(Some("false"));
    }
  }

  class CrateConnection {
    const clientHandle: ClientHandle
    var readOnly: bool
    var schema: Option<string>
    /** None while the connection is closed (the source's null). */
    var metaData: Option<DatabaseMetaData>
    var databaseVersion: Option<string>
    var properties: Properties

    /** A new connection holds no metadata, so it counts as closed until connect() succeeds. */
    constructor (handle: ClientHandle, properties: Properties)
      ensures clientHandle == handle && this.properties == properties
      ensures !readOnly && schema == None && databaseVersion == None
      ensures IsClosed()
    {
      clientHandle := handle;
      readOnly := false;
      schema := None;
      metaData := None;
      databaseVersion := None;
      this.properties := properties;
    }

    /** isClosed(): closed exactly while no metadata is held. */
    function IsClosed(): (closed: bool)
      reads this
      ensures closed <==> metaData.None?
    {
      metaData.None?
    }

    /** isValid(timeout) ignores the timeout and answers !isClosed(). */
    function IsValid(timeout: int): (valid: bool)
      reads this
      ensures valid <==> metaData.Some?
    {
      !IsClosed()
    }

    /** checkClosed(): throws on a closed connection. */
    function CheckClosed(): (r: Outcome)
      reads this
      ensures r.Pass? <==> metaData.Some?
      ensures r.Fail? ==> r.failure == ConnectionClosed
    {
      if IsClosed() then Fail(ConnectionClosed) else Pass
    }

    /** strict(): only a "strict" entry that reads as true makes the connection strict. */
    function Strict(): (strict: bool)
      reads this, properties
      ensures strict <==> "strict" in properties.entries && BooleanValueOf(Some(properties.entries["strict"]))
    {
      StrictReadingsAgree(properties.entries);
      StrictOf(properties.entries)
    }

    /** throwIfStrictMode(message): throws exactly when strict() holds. */
    function ThrowIfStrictMode(): (r: Outcome)
      reads this, properties
      ensures r.Fail? <==> Strict()
      ensures r.Fail? ==> r.failure == FeatureNotSupported
    {
      StrictReadingsAgree(properties.entries);
      if StrictModeOf(properties.entries) then Fail(FeatureNotSupported) else Pass
    }

    /** connect(): `server` is what the cluster answered, the product version,
        or None when no node was available; then the connection closes itself. */
    method Connect(server: Option<string>) returns (r: Outcome)
      modifies this, clientHandle
      ensures server.Some? ==> r == Pass && !IsClosed() && databaseVersion == server
                               && clientHandle.closeSignals == old(clientHandle.closeSignals)
      ensures server.None? ==> r == Fail(ConnectFailed) && IsClosed() && databaseVersion == old(databaseVersion)
                               && clientHandle.closeSignals == old(clientHandle.closeSignals) + 1
      ensures readOnly == old(readOnly) && schema == old(schema) && properties == old(properties)
    {
      if server.Some? {
        metaData := Some(DatabaseMetaData(server.value));
        databaseVersion := server;
        r := Pass;
      } else {
        Close();
        r := Fail(ConnectFailed);
      }
    }

    /** close(): not guarded, so every call signals the handle again. */
    method Close()
      modifies this, clientHandle
      ensures IsClosed() && forall timeout :: !IsValid(timeout)
      ensures clientHandle.closeSignals == old(clientHandle.closeSignals) + 1
      ensures readOnly == old(readOnly) && schema == old(schema)
      ensures databaseVersion == old(databaseVersion) && properties == old(properties)
    {
      metaData := None;
      clientHandle.ConnectionClosed();
    }

    /** nativeSQL(sql), one of the methods that only check that the connection is open. */
    method NativeSql(sql: string) returns (r: Result<string>)
      ensures IsClosed() <==> r == Err(ConnectionClosed)
      ensures !IsClosed() <==> r == Ok(sql)
    {
      if IsClosed() {
        return Err(ConnectionClosed);
      }
      r := Ok(sql);
    }

    method SetAutoCommit(autoCommit: bool) returns (r: Outcome)
      ensures IsClosed() ==> r == Fail(ConnectionClosed)
      ensures !IsClosed() ==> (r.Fail? <==> !autoCommit && Strict())
      ensures !IsClosed() && r.Fail? ==> r.failure == FeatureNotSupported
    {
      r := CheckClosed();
      if r.Fail? {
        return;
      }
      if !autoCommit && Strict() {
        r := Fail(FeatureNotSupported);
      }
    }

    /** getAutoCommit(): auto-commit is always on. */
    function GetAutoCommit(): (r: Result<bool>)
      reads this
      ensures IsClosed() <==> r == Err(ConnectionClosed)
      ensures !IsClosed() <==> r == Ok(true)
    {
      if IsClosed() then Err(ConnectionClosed) else Ok(true)
    }

    method Commit() returns (r: Outcome)
      ensures IsClosed() ==> r == Fail(ConnectionClosed)
      ensures !IsClosed() ==> (r.Fail? <==> Strict())
      ensures !IsClosed() && r.Fail? ==> r.failure == FeatureNotSupported
    {
      r := CheckClosed();
      if r.Fail? {
        return;
      }
      var autoCommit := GetAutoCommit();
      if autoCommit == Ok(true) && Strict() {
        r := Fail(FeatureNotSupported);
      }
    }

    method Rollback() returns (r: Outcome)
      ensures IsClosed() ==> r == Fail(ConnectionClosed)
      ensures !IsClosed() ==> (r.Fail? <==> Strict())
      ensures !IsClosed() && r.Fail? ==> r.failure == FeatureNotSupported
    {
      r := CheckClosed();
      if r.Fail? {
        return;
      }
      r := ThrowIfStrictMode();
    }

    /** rollback(savepoint) */
    method RollbackTo(savepoint: Option<Savepoint>) returns (r: Outcome)
      ensures IsClosed() ==> r == Fail(ConnectionClosed)
      ensures !IsClosed() ==> (r.Fail? <==> Strict())
      ensures !IsClosed() && r.Fail? ==> r.failure == FeatureNotSupported
    {
      r := CheckClosed();
      if r.Fail? {
        return;
      }
      r := ThrowIfStrictMode();
    }

    /** setSavepoint(): returns null unless strict mode makes it throw. */
    method SetSavepoint() returns (r: Result<Option<Savepoint>>)
      ensures IsClosed() ==> r == Err(ConnectionClosed)
      ensures !IsClosed() ==> (r.Err? <==> Strict())
      ensures !IsClosed() && r.Err? ==> r.failure == FeatureNotSupported
      ensures r.Ok? ==> r.value == None
    {
      if IsClosed() {
        return Err(ConnectionClosed);
      }
      var strict := ThrowIfStrictMode();
      if strict.Fail? {
        return Err(strict.failure);
      }
      r := Ok(None);
    }

    /** setSavepoint(name) */
    method SetNamedSavepoint(name: string) returns (r: Result<Option<Savepoint>>)
      ensures IsClosed() ==> r == Err(ConnectionClosed)
      ensures !IsClosed() ==> (r.Err? <==> Strict())
      ensures !IsClosed() && r.Err? ==> r.failure == FeatureNotSupported
      ensures r.Ok? ==> r.value == None
    {
      if IsClosed() {
        return Err(ConnectionClosed);
      }
      var strict := ThrowIfStrictMode();
      if strict.Fail? {
        return Err(strict.failure);
      }
      r := Ok(None);
    }

    method ReleaseSavepoint(savepoint: Option<Savepoint>) returns (r: Outcome)
      ensures IsClosed() ==> r == Fail(ConnectionClosed)
      ensures !IsClosed() ==> (r.Fail? <==> Strict())
      ensures !IsClosed() && r.Fail? ==> r.failure == FeatureNotSupported
    {
      r := CheckClosed();
      if r.Fail? {
        return;
      }
      r := ThrowIfStrictMode();
    }

    method SetReadOnly(value: bool) returns (r: Outcome)
      modifies this
      ensures old(IsClosed()) ==> r == Fail(ConnectionClosed) && readOnly == old(readOnly)
      ensures !old(IsClosed()) ==> r == Pass && readOnly == value
      ensures metaData == old(metaData) && schema == old(schema)
      ensures databaseVersion == old(databaseVersion) && properties == old(properties)
    {
      r := CheckClosed();
      if r.Fail? {
        return;
      }
      readOnly := value;
    }

    /** isReadOnly() is not guarded: it answers even on a closed connection. */
    function IsReadOnly(): (ro: bool)
      reads this
      ensures ro == readOnly
    {
      readOnly
    }

    /** getMetaData() */
    function GetMetaData(): (r: Result<DatabaseMetaData>)
      reads this
      ensures IsClosed() <==> r == Err(ConnectionClosed)
      ensures r.Ok? ==> metaData == Some(r.value)
    {
      if IsClosed() then Err(ConnectionClosed) else Ok(metaData.value)
    }

    /** setClientInfo(name, value): a value sets the entry, null removes it. */
    method SetClientInfo(name: string, value: Option<string>) returns (r: Outcome)
      modifies properties
      ensures IsClosed() ==> r == Fail(ClientInfoRejected) && properties.entries == old(properties.entries)
      ensures !IsClosed() ==> r == Pass
      ensures !IsClosed() && value.Some? ==> properties.entries == old(properties.entries)[name := value.value]
      ensures !IsClosed() && value.None? ==> properties.entries == old(properties.entries) - {name}
      ensures !IsClosed() ==> GetClientInfo(name) == Ok(value)
      ensures forall key :: key != name ==> GetClientInfo(key) == old(GetClientInfo(key))
    {
      if IsClosed() {
        return Fail(ClientInfoRejected);
      }
      if value.Some? {
        properties.SetProperty(name, value.value);
      } else {
        properties.Remove(name);
      }
      r := Pass;
    }

    /** setClientInfo(properties): null or empty clears the current object;
        anything else becomes the connection's properties object. */
    method SetAllClientInfo(props: Properties?) returns (r: Outcome)
      modifies this, properties
      ensures metaData == old(metaData)
      ensures old(IsClosed()) ==> r == Fail(ClientInfoRejected)
                                  && properties == old(properties) && properties.entries == old(properties.entries)
      ensures !old(IsClosed()) && (props == null || old(props.entries) == map[]) ==>
                r == Pass && properties == old(properties) && properties.entries == map[]
      ensures !old(IsClosed()) && props != null && old(props.entries) != map[] ==>
                r == Pass && properties == props && properties.entries == old(props.entries)
                && old(properties).entries == old(properties.entries)
      ensures readOnly == old(readOnly) && schema == old(schema) && databaseVersion == old(databaseVersion)
    {
      if IsClosed() {
        return Fail(ClientInfoRejected);
      }
      if props == null || props.IsEmpty() {
        properties.Clear();
      } else {
        properties := props;
      }
      r := Pass;
    }

    /** getClientInfo(name) */
    function GetClientInfo(name: string): (r: Result<Option<string>>)
      reads this, properties
      ensures IsClosed() <==> r == Err(ConnectionClosed)
      ensures !IsClosed() ==> r.Ok? && (r.value.Some? <==> name in properties.entries)
      ensures !IsClosed() && name in properties.entries ==> r.value == Some(properties.entries[name])
    {
      if IsClosed() then Err(ConnectionClosed) else Ok(properties.GetProperty(name))
    }

    /** getClientInfo(): the connection's own properties object. */
    function GetAllClientInfo(): (r: Result<Properties>)
      reads this
      ensures IsClosed() <==> r == Err(ConnectionClosed)
      ensures r.Ok? ==> r.value == properties
    {
      if IsClosed() then Err(ConnectionClosed) else Ok(properties)
    }

    /** setSchema(schema): `belowDefaultSchema` is the outcome of comparing the
        database version with the first version that accepts a default schema;
        below it the call is silently ignored. */
    method SetSchema(schema: Option<string>, belowDefaultSchema: Option<string> -> bool) returns (r: Outcome)
      modifies this
      ensures old(IsClosed()) ==> r == Fail(ConnectionClosed) && this.schema == old(this.schema)
      ensures !old(IsClosed()) ==> r == Pass
      ensures !old(IsClosed()) && belowDefaultSchema(databaseVersion) ==> this.schema == old(this.schema)
      ensures !old(IsClosed()) && !belowDefaultSchema(databaseVersion) ==> this.schema == schema
      ensures metaData == old(metaData) && readOnly == old(readOnly)
      ensures databaseVersion == old(databaseVersion) && properties == old(properties)
    {
      r := CheckClosed();
      if r.Fail? {
        return;
      }
      if belowDefaultSchema(databaseVersion) {
        return;
      }
      this.schema := schema;
    }

    /** getSchema() */
    function GetSchema(): (r: Result<Option<string>>)
      reads this
      ensures IsClosed() <==> r == Err(ConnectionClosed)
      ensures !IsClosed() <==> r == Ok(schema)
    {
      if IsClosed() then Err(ConnectionClosed) else Ok(schema)
    }
  }
}
