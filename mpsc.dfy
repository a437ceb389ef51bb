/**
 * A `std::sync::mpsc` channel between two threads, seen from outside any schedule: the messages sent
 * and not yet received, and whether each end is still held. Both channels of the program (raw chunks
 * from the reader to the dispatch loop, phrases from the voice subscriber to its worker) are of this
 * kind.
 */
module Mpsc {

  /** What `try_recv` answers. */
  datatype TryRecv<T> = Message(msg: T) | Empty | Disconnected

  /** What `recv` answers; `Blocked` stands for a call that is still waiting for a sender. */
  datatype Recv<T> = Got(msg: T) | Closed | Blocked

  class Channel<T> {
    /** Messages sent and not yet received, oldest first. */
    var queue: seq<T>
    var senderAlive: bool
    var receiverAlive: bool

    /** `mpsc::channel()`. */
    constructor ()
      ensures queue == [] && senderAlive && receiverAlive
    {
      queue := [];
      senderAlive := true;
      receiverAlive := true;
    }

    /** `Sender::send`: fails, and delivers nothing, once the receiver is gone. */
    method Send(x: T) returns (ok: bool)
      modifies this
      ensures ok == old(receiverAlive)
      ensures queue == if ok then old(queue) + [x] else old(queue)
      ensures senderAlive == old(senderAlive) && receiverAlive == old(receiverAlive)
    {
      ok := receiverAlive;
      if ok {
        queue := queue + [x];
      }
    }

    /**
     * `Receiver::try_recv`: the oldest message if there is one (even after the sender is gone);
     * otherwise Empty while a sender lives and Disconnected after.
     */
    method TryRecv() returns (r: TryRecv<T>)
      modifies this
      ensures old(queue) != [] ==> r == Message(old(queue)[0]) && queue == old(queue)[1..]
      ensures old(queue) == [] ==> queue == [] && r == if senderAlive then Empty else Disconnected
      ensures senderAlive == old(senderAlive) && receiverAlive == old(receiverAlive)
    {
      if queue != [] {
        r := Message(queue[0]);
        queue := queue[1..];
      } else if senderAlive {
        r := Empty;
      } else {
        r := Disconnected;
      }
    }

    /**
     * `Receiver::recv`: like TryRecv, except that on an empty queue with a live sender the call
     * blocks instead of answering Empty.
     */
    method Recv() returns (r: Recv<T>)
      modifies this
      ensures old(queue) != [] ==> r == Got(old(queue)[0]) && queue == old(queue)[1..]
      ensures old(queue) == [] ==> queue == [] && r == if senderAlive then Blocked else Closed
      ensures senderAlive == old(senderAlive) && receiverAlive == old(receiverAlive)
    {
      if queue != [] {
        r := Got(queue[0]);
        queue := queue[1..];
      } else if senderAlive {
        r := Blocked;
      } else {
        r := Closed;
      }
    }

    /** Dropping the `Sender`. */
    method DropSender()
      modifies this
      ensures !senderAlive && queue == old(queue) && receiverAlive == old(receiverAlive)
    {
      senderAlive := false;
    }

    /** Dropping the `Receiver`; what was still queued is lost with it. */
    method DropReceiver()
      modifies this
      ensures !receiverAlive && queue == [] && senderAlive == old(senderAlive)
    {
      receiverAlive := false;
      queue := [];
    }
  }
}
