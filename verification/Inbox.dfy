/** A thread's inbox in memory: messages linked through their `Next` pointers, with a head pointer, a tail
    pointer and the message event. */
module Inbox {
  import opened Bytes

  type Address = nat

  const NULL: Address := 0

  datatype Message = Message(source: nat, data: seq<Byte>)

  datatype Option<T> = None | Some(value: T)

  /** What the caller of GetMessage offers: nothing, to ask for the length only; the value that stands for
      dropping the message; or a buffer, which may be found to be invalid. */
  datatype Buffer = LengthOnly | Drop | Into(size: nat, valid: bool)

  predicate Takes(buffer: Buffer)
  {
    buffer.Drop? || (buffer.Into? && buffer.valid)
  }

  /** The pointers spell out the queue. */
  ghost predicate Chain(next: map<Address, Address>, first: Address, last: Address, queue: seq<Address>)
  {
    && first == (if queue == [] then NULL else queue[0])
    && last == (if queue == [] then NULL else queue[|queue| - 1])
    && forall i | 0 <= i < |queue| :: LinkAt(next, queue, i)
  }

  ghost predicate LinkAt(next: map<Address, Address>, queue: seq<Address>, i: nat)
    requires i < |queue|
  {
    && queue[i] != NULL && queue[i] in next
    && next[queue[i]] == (if i + 1 < |queue| then queue[i + 1] else NULL)
  }

  class Mailbox {
    var next: map<Address, Address>
    var body: map<Address, Message>
    var messages: Address
    var lastMessage: Address
    var event: bool
    ghost var queue: seq<Address>
    ghost var contents: seq<Message>

    ghost predicate Valid()
      reads this
    {
      && Chain(next, messages, lastMessage, queue)
      && |contents| == |queue|
      && (forall i | 0 <= i < |queue| :: queue[i] in body && body[queue[i]] == contents[i])
      && forall i, j | 0 <= i < j < |queue| :: queue[i] != queue[j]
    }

    constructor ()
      ensures Valid() && contents == [] && !event
    {
      next, body, messages, lastMessage, event := map[], map[], NULL, NULL, false;
      queue, contents := [], [];
    }

    /** Link a copy of a message in at the end; the event is posted separately.  `at` is the address of the
        new message. */
    method SendMessage(at: Address, alive: bool, source: nat, length: int, data: Option<seq<Byte>>) returns (ok: bool)
      requires Valid() && at != NULL && at !in queue
      requires data.Some? ==> length <= |data.value|
      modifies this`next, this`body, this`messages, this`lastMessage, this`queue, this`contents
      ensures Valid() && ok == (length > 0 && data.Some? && alive)
      ensures contents == old(contents) + if ok then [Message(source, data.value[..length])] else []
    {
      if length <= 0 || data.None? || !alive {
        return false;
      }
      assert queue != [] ==> LinkAt(next, queue, |queue| - 1);
      if lastMessage != NULL {
        next := next[at := NULL][lastMessage := at];
      } else {
        next := next[at := NULL];
        messages := at;
      }
      lastMessage := at;
      body := body[at := Message(source, data.value[..length])];
      ghost var was := old(queue);
      queue, contents := queue + [at], contents + [body[at]];
      forall i | 0 <= i < |queue|
        ensures LinkAt(next, queue, i)
      {
        if i < |was| {
          assert LinkAt(old(next), was, i);
        }
      }
      return true;
    }

    /** Take the first message, copying as much of it as fits, and mark the event again if more are left; or
        just look at it. */
    method GetMessage(buffer: Buffer) returns (ret: int, source: Option<nat>, copied: seq<Byte>)
      requires Valid()
      modifies this`messages, this`lastMessage, this`event, this`queue, this`contents
      ensures Valid()
      ensures old(contents) == [] ==>
                ret == 0 && source == None && copied == [] && contents == [] && event == old(event)
      ensures old(contents) != [] ==>
                && source == Some(old(contents)[0].source)
                && ret == (if buffer.Into? && !buffer.valid then -1 else |old(contents)[0].data|)
                && contents == (if Takes(buffer) then old(contents)[1..] else old(contents))
                && event == (old(event) || (Takes(buffer) && |old(contents)| > 1))
                && copied <= old(contents)[0].data
                && |copied| == (if !buffer.Into? || !buffer.valid then 0
                                else if buffer.size < |old(contents)[0].data| then buffer.size
                                else |old(contents)[0].data|)
    {
      source, copied := None, [];
      if queue != [] {
        assert LinkAt(next, queue, 0);
      }
      if messages == NULL {
        return 0, None, [];
      }
      var message := body[messages];
      source := Some(message.source);
      if buffer.LengthOnly? {
        return |message.data|, source, [];
      }
      if buffer.Into? {
        if !buffer.valid {
          return -1, source, [];
        }
        copied := if buffer.size < |message.data| then message.data[..buffer.size] else message.data;
      }
      ret := |message.data|;
      if |queue| > 1 {
        assert LinkAt(next, queue, 1);
      }
      messages := next[messages];
      if messages == NULL {
        lastMessage := NULL;
      } else {
        event := true;
      }
      ghost var was := queue;
      queue, contents := queue[1..], contents[1..];
      forall i | 0 <= i < |queue|
        ensures LinkAt(next, queue, i)
      {
        assert LinkAt(next, was, i + 1);
      }
    }
  }
}
