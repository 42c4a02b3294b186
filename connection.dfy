/**
 * One client connection: the worker id of the client that opened it, the reply
 * bytes written to it, and whether it has been closed. Connections are compared
 * by reference, so a worker record can hold a set of them.
 */
module Connections {
  import opened Wrappers
  import Resp

  class Connection {
    /** The worker id the client announced when it opened this connection ("" for a producer). */
    const clientWid: string
    /** Everything written to the socket so far. */
    var written: string
    var closed: bool

    constructor (wid: string)
      ensures clientWid == wid && written == [] && !closed
    {
      clientWid := wid;
      written := [];
      closed := false;
    }

    method Ok()
      modifies this`written
      ensures written == old(written) + "+OK\r\n"
    {
      written := written + Resp.OkReply();
    }

    method Number(n: int)
      modifies this`written
      ensures written == old(written) + Resp.NumberReply(n)
    {
      written := written + Resp.NumberReply(n);
    }

    method Result(data: Option<string>)
      modifies this`written
      ensures written == old(written) + Resp.ResultReply(data)
    {
      written := written + Resp.ResultReply(data);
    }

    method Error(command: string, message: string)
      modifies this`written
      ensures written == old(written) + "-ERR " + message + "\r\n"
    {
      written := written + Resp.ErrorReply(command, message);
    }

    /** Closing writes nothing further. */
    method Close()
      modifies this`closed
      ensures closed && written == old(written)
    {
      closed := true;
    }
  }
}
