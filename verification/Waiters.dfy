/** The bounded channel on which a StartForwarding call waits for reported URIs. */
module Waiters {

  type Batch = seq<string>

  const CHANNEL_SIZE := 5

  /** A non-blocking send: dropped when the buffer is full. */
  function Push(buffer: seq<Batch>, batch: Batch): seq<Batch> {
    if |buffer| < CHANNEL_SIZE then buffer + [batch] else buffer
  }

  /** What a fresh channel holds after a run of sends and no receive. */
  function FirstFew(sent: seq<Batch>): seq<Batch> {
    if |sent| <= CHANNEL_SIZE then sent else sent[..CHANNEL_SIZE]
  }

  /** The buffer holds the first five batches sent, in order. */
  lemma FirstFewIsFirstFive(sent: seq<Batch>)
    ensures FirstFew(sent) <= sent && |FirstFew(sent)| == (if |sent| <= 5 then |sent| else 5)
  {
  }

  lemma PushFirstFew(sent: seq<Batch>, batch: Batch)
    ensures Push(FirstFew(sent), batch) == FirstFew(sent + [batch])
  {
  }
}
