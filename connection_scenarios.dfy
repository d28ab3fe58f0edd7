/** Short call sequences on a CrateConnection, as an application makes them,
    with what each sequence observes. */
module ConnectionScenarios {
  import opened Outcomes
  import opened Connection

  /** setReadOnly(b) then isReadOnly(): b, unless the connection was closed. */
  method ReadOnlyRoundTrip(c: CrateConnection, b: bool) returns (readBack: bool)
    modifies c
    ensures readBack == if old(c.IsClosed()) then old(c.readOnly) else b
  {
    var outcome := c.SetReadOnly(b);
    readBack := c.IsReadOnly();
  }

  /** setClientInfo(name, value) then getClientInfo(name). */
  method ClientInfoRoundTrip(c: CrateConnection, name: string, value: Option<string>)
    returns (written: Outcome, readBack: Result<Option<string>>)
    modifies c.properties
    ensures c.IsClosed() ==> written == Fail(ClientInfoRejected) && readBack == Err(ConnectionClosed)
    ensures !c.IsClosed() ==> written == Pass && readBack == Ok(value)
  {
    written := c.SetClientInfo(name, value);
    readBack := c.GetClientInfo(name);
  }

  /** close() twice: still closed, and the handle was told twice. */
  method CloseTwice(c: CrateConnection)
    modifies c, c.clientHandle
    ensures c.IsClosed()
    ensures c.clientHandle.closeSignals == old(c.clientHandle.closeSignals) + 2
  {
    c.Close();
    c.Close();
  }

  /** Turning strict mode on and off through client info changes what commit does. */
  method StrictModeThroughClientInfo(c: CrateConnection) returns (strictCommit: Outcome, laxCommit: Outcome)
    modifies c.properties
    ensures c.IsClosed() ==> strictCommit == Fail(ConnectionClosed) && laxCommit == Fail(ConnectionClosed)
    ensures !c.IsClosed() ==> strictCommit == Fail(FeatureNotSupported) && laxCommit == Pass
  {
    var on := c.SetClientInfo("strict", Some("TRUE"));
    strictCommit := c.Commit();
    var off := c.SetClientInfo("strict", None);
    laxCommit := c.Commit();
  }
}
