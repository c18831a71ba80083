/**
 * The rolling log buffer of the batch driver: `add_log` appends a
 * timestamped entry to `log_messages` and drops the oldest entry once
 * there are more than twenty.
 */
module Reporter {

  /** How many entries the buffer keeps. */
  const Capacity: nat := 20

  /** The most recent `Capacity` entries of `h`, in insertion order. */
  function Recent(h: seq<string>): (r: seq<string>)
    ensures |r| == if |h| <= Capacity then |h| else Capacity
    ensures r == h[|h| - |r|..]
  {
    if |h| <= Capacity then h else h[|h| - Capacity..]
  }

  /** One more entry: appended, and the oldest dropped if that makes more than `Capacity`. */
  lemma RecentAppend(h: seq<string>, e: string)
    ensures var r := Recent(h) + [e];
            Recent(h + [e]) == if |r| > Capacity then r[1..] else r
  {
    var r := Recent(h) + [e];
    var h' := h + [e];
    if |r| > Capacity {
      assert |h| >= Capacity;
      assert r[1..] == h'[|h'| - Capacity..];
    } else {
      assert |h| < Capacity;
    }
  }

  /** `f"{timestamp} {message}"`. */
  function Entry(timestamp: string, message: string): string {
    timestamp + " " + message
  }

  /** `log_messages` with, as ghost state, every entry ever added. */
  class LogBuffer {
    var messages: seq<string>
    ghost var history: seq<string>

    /** The buffer always holds the most recent entries of the history. */
    ghost predicate Valid()
      reads this
    {
      messages == Recent(history)
    }

    constructor ()
      ensures Valid() && history == [] && messages == []
    {
      messages := [];
      history := [];
    }

    /** `add_log`: returns the new entry; afterwards the buffer holds at most twenty entries and ends with it. */
    method Add(timestamp: string, message: string) returns (entry: string)
      requires Valid()
      modifies this
      ensures Valid()
      ensures entry == Entry(timestamp, message)
      ensures history == old(history) + [entry]
      ensures messages == if |old(messages)| + 1 > Capacity then (old(messages) + [entry])[1..] else old(messages) + [entry]
      ensures |messages| <= Capacity && messages[|messages| - 1] == entry
    {
      entry := Entry(timestamp, message);
      RecentAppend(history, entry);
      messages := messages + [entry];
      if |messages| > Capacity {
        messages := messages[1..];
      }
      history := history + [entry];
    }
  }
}
