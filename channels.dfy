/**
 * The two ends of an `mpsc` channel, seen from one thread. A receiver holds
 * the messages still to arrive, in arrival order; once they are used up the
 * senders are gone and `recv` fails. A sender records what it has sent, and
 * its sends fail once the receiving end has been dropped.
 */
module Channels {
  import opened Wrappers

  class Receiver<T> {
    /** The messages that `recv` will still return, in order. */
    var pending: seq<T>

    constructor (messages: seq<T>)
      ensures pending == messages
    {
      pending := messages;
    }

    /** `recv`: the next message, or `None` (`Err(RecvError)`) once the channel is closed and drained. */
    method Recv() returns (r: Option<T>)
      modifies this
      ensures old(pending) == [] ==> r == None && pending == []
      ensures old(pending) != [] ==> r == Some(old(pending)[0]) && pending == old(pending)[1..]
    {
      if pending == [] {
        r := None;
      } else {
        r := Some(pending[0]);
        pending := pending[1..];
      }
    }
  }

  class Sender<T> {
    /** Whether the receiving end still exists. */
    var connected: bool
    /** The messages sent so far, in order. */
    var sent: seq<T>

    /** A fresh channel's sending end: its receiver exists and nothing is sent yet. */
    constructor ()
      ensures connected && sent == []
    {
      connected := true;
      sent := [];
    }

    /** `send`: `Ok` with the message appended while the receiver exists, `Err` with nothing sent once it is gone. */
    method Send(m: T) returns (ok: bool)
      modifies this
      ensures ok == old(connected) && connected == old(connected)
      ensures sent == if ok then old(sent) + [m] else old(sent)
    {
      ok := connected;
      if ok {
        sent := sent + [m];
      }
    }

    /** The receiving end is dropped: every later send fails. */
    method Disconnect()
      modifies this
      ensures !connected && sent == old(sent)
    {
      connected := false;
    }
  }
}
