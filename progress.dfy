/** The progress buffer of a running task (SoakTask in Tasks.java): the
    workflow appends report lines to a pending list; a periodic tick copies
    the list, clears it and delivers the copy to the operator as one batch,
    and cancels itself once the workflow has said it is no longer sending.
    Ticks and appends are modelled as sequential calls in any interleaving. */
module Progress {

  /** All lines of a sequence of batches, in order. */
  function Flatten<M>(batches: seq<seq<M>>): (r: seq<M>)
    ensures batches == [] ==> r == []
  {
    if batches == [] then [] else Flatten(batches[..|batches| - 1]) + batches[|batches| - 1]
  }

  lemma FlattenSnoc<M>(batches: seq<seq<M>>, b: seq<M>)
    ensures Flatten(batches + [b]) == Flatten(batches) + b
  {
    assert (batches + [b])[..|batches|] == batches;
  }

  /** Appending in two steps is appending the concatenation. */
  lemma AppendAssoc<M>(a: seq<M>, b: seq<M>, c: seq<M>)
    ensures (a + b) + c == a + (b + c)
  {
  }

  class Buffer<M> {
    /** The pending lines, not yet delivered. */
    var messages: seq<M>
    /** Set while the workflow body is still running. */
    var sending: bool
    /** Set once the periodic tick has cancelled itself. */
    var cancelled: bool
    /** The batches delivered to the operator so far, in delivery order. */
    var delivered: seq<seq<M>>

    /** Everything reported so far: what was delivered, then what is pending. */
    ghost function Reported(): seq<M>
      reads this
    {
      Flatten(delivered) + messages
    }

    /** `lines` were appended to the pending list. */
    twostate predicate Grew(lines: seq<M>)
      reads this
    {
      messages == old(messages) + lines
    }

    /** The start of a run: a fresh empty list, `sending` set, the periodic
        tick scheduled and not yet cancelled. */
    constructor Start()
      ensures messages == [] && delivered == [] && Reported() == []
      ensures sending && !cancelled
    {
      messages := [];
      sending := true;
      cancelled := false;
      delivered := [];
    }

    /** The workflow reports one line. */
    method Append(line: M)
      modifies this`messages
      ensures Grew([line])
      ensures Reported() == old(Reported()) + [line]
    {
      messages := messages + [line];
    }

    /** One run of the periodic callback. It cancels itself when `sending`
        is already false, but delivers the pending batch either way, and it
        delivers even when the batch is empty. The scheduler never runs a
        cancelled task again. Nothing reported is lost or reordered. */
    method Tick()
      requires !cancelled
      modifies this`messages, this`delivered, this`cancelled
      ensures delivered == old(delivered) + [old(messages)]
      ensures messages == []
      ensures cancelled == !sending
      ensures Reported() == old(Reported())
    {
      if !sending {
        cancelled := true;
      }
      var toSend := messages;
      messages := [];
      FlattenSnoc(delivered, toSend);
      delivered := delivered + [toSend];
    }

    /** The workflow body has returned normally. */
    method Finish()
      modifies this`sending
      ensures !sending
    {
      sending := false;
    }
  }

  /** Two ticks with no line appended hand `sendMessages` two empty lists:
      the tick does not check whether there is anything to send. */
  method TicksWithoutLines() returns (batches: seq<seq<string>>)
    ensures batches == [[], []]
  {
    var b := new Buffer<string>.Start();
    b.Tick();
    b.Tick();
    batches := b.delivered;
  }

  /** A run that appends "a", is ticked, appends "b" and returns: the tick
      that then observes `sending == false` still delivers "b" and cancels,
      so every line reaches the operator. */
  method LastTickDrains() returns (batches: seq<seq<string>>, pending: seq<string>, cancelled: bool)
    ensures batches == [["a"], ["b"]]
    ensures pending == []
    ensures cancelled
  {
    var b := new Buffer<string>.Start();
    b.Append("a");
    assert b.messages == ["a"];
    b.Tick();
    b.Append("b");
    assert b.messages == ["b"];
    b.Finish();
    b.Tick();
    batches, pending, cancelled := b.delivered, b.messages, b.cancelled;
  }
}
