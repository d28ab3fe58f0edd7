/** The client handles a connection holds. The registry that shares and
    reference-counts them is not part of this model: a handle here only
    remembers its URL and how often a connection told it that it closed. */
module ClientHandles {

  class ClientHandle {
    const url: string
    /** How many times connectionClosed() has been called on this handle. */
    var closeSignals: nat

    constructor (url: string)
      ensures this.url == url && closeSignals == 0
    {
      this.url := url;
      closeSignals := 0;
    }

    method ConnectionClosed()
      modifies this
      ensures closeSignals == old(closeSignals) + 1
    {
      closeSignals := closeSignals + 1;
    }
  }

  /** Stands in for ClientHandleRegistry: it records every handle it gave
      out, in order; each is new and bound to the URL it was asked for. */
  class ClientHandleRegistry {
    var handles: seq<ClientHandle>

    constructor ()
      ensures handles == []
    {
      handles := [];
    }

    method GetHandle(url: string) returns (handle: ClientHandle)
      modifies this
      ensures fresh(handle) && handle.url == url && handle.closeSignals == 0
      ensures handles == old(handles) + [handle]
    {
      handle := new ClientHandle(url);
      handles := handles + [handle];
    }
  }
}
