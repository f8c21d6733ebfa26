/**
 * The batching engine of delay_notifier.go: a bounded inbox filled by
 * SendMessage, a collection cycle that drains it, removes repeated texts,
 * cuts the batch into groups of at most maxMessages and hands each group,
 * joined with the separator, to the wrapped sender; and Close, which runs a
 * final cycle and seals the inbox. Each cycle is one atomic step; the ticker
 * that triggers cycles is not modelled, only its period as a setting.
 */
module DelayNotifier {
  import opened Wrappers
  import opened Arith
  import opened GoStrings
  import opened Collect
  import opened Grouping
  import opened Notifier

  /** The default separator: backslash, n, three '=', backslash, n (no real newlines). */
  const DefaultSep: string := "\\n===\\n"
  const DefaultMaxMessages: int := 5
  /** Capacity of the inbox channel. */
  const InboxCapacity: nat := 1000
  /** time.Duration counts nanoseconds. */
  const Millisecond: int := 1000000
  const DefaultCollectFreq: int := 500 * Millisecond

  /** make([]int, n): the placeholder slice the cycle passes to groupInMax. */
  function Zeros(n: nat): (z: seq<int>)
    ensures |z| == n
  {
    seq(n, _ => 0)
  }

  /**
   * Payload i of a cycle: the batch entries from start = i * max to
   * end = min(start + max, len), joined with sep.
   */
  function PayloadAt(batch: seq<string>, max: int, sep: string, i: nat): (p: string)
    requires i < GroupCount(|batch|, max)
    ensures max >= 1 ==> i < |Groups(batch, max)| && p == Join(Groups(batch, max)[i], sep)
  {
    SliceBounds(|batch|, max, i);
    var p := Join(batch[i * max .. Min(i * max + max, |batch|)], sep);
    assert max >= 1 ==> i < |Groups(batch, max)| && p == Join(Groups(batch, max)[i], sep) by {
      if max >= 1 {
        GroupsCount(batch, max);
        GroupsAt(batch, max, i);
      }
    }
    p
  }

  /** The payloads one cycle hands to the sender, in the order it hands them over. */
  function Payloads(batch: seq<string>, max: int, sep: string): (ps: seq<string>)
    ensures |ps| == GroupCount(|batch|, max)
  {
    seq(GroupCount(|batch|, max), i requires 0 <= i < GroupCount(|batch|, max) => PayloadAt(batch, max, sep, i))
  }

  /**
   * For max >= 1 the cycle's payloads are exactly the groups of groupInMax,
   * in order, each joined with sep (the partition facts about the groups are
   * GroupsPartition, GroupsSizes and GroupsCeil).
   */
  lemma PayloadsAreJoinedGroups(batch: seq<string>, max: int, sep: string)
    requires max >= 1
    ensures |Payloads(batch, max, sep)| == |Groups(batch, max)|
    ensures forall i | 0 <= i < |Groups(batch, max)| ::
      Payloads(batch, max, sep)[i] == Join(Groups(batch, max)[i], sep)
  {
    GroupsCount(batch, max);
    forall i | 0 <= i < |Groups(batch, max)|
      ensures Payloads(batch, max, sep)[i] == Join(Groups(batch, max)[i], sep)
    {
      GroupsAt(batch, max, i);
    }
  }

  /** A batch that fits in one group is delivered as one payload holding all of it. */
  lemma SmallBatchOnePayload(batch: seq<string>, max: int, sep: string)
    requires 0 < |batch| <= max
    ensures Payloads(batch, max, sep) == [Join(batch, sep)]
  {
    assert batch[0 .. Min(max, |batch|)] == batch;
  }

  /** With maxMessages == 5, twelve distinct messages are delivered as groups of 5, 5 and 2. */
  lemma TwelveMessagesThreeGroups(batch: seq<string>, sep: string)
    requires |batch| == 12
    ensures Payloads(batch, 5, sep)
         == [Join(batch[..5], sep), Join(batch[5..10], sep), Join(batch[10..], sep)]
  {
    assert GroupCount(12, 5) == 3;
    var ps := Payloads(batch, 5, sep);
    assert ps[0] == PayloadAt(batch, 5, sep, 0) == Join(batch[..5], sep);
    assert ps[1] == PayloadAt(batch, 5, sep, 1) == Join(batch[5..10], sep);
    assert batch[10..Min(15, 12)] == batch[10..];
    assert ps[2] == PayloadAt(batch, 5, sep, 2) == Join(batch[10..], sep);
  }

  /**
   * The maxMessages == 0 quirk: groupInMax returns the whole batch as one
   * group, but the send loop slices [0, 0) and so sends one empty payload.
   */
  lemma ZeroMaxSendsEmptyPayload(batch: seq<string>, sep: string)
    requires |batch| > 0
    ensures Groups(batch, 0) == [batch]
    ensures Payloads(batch, 0, sep) == [""]
  {
    assert PayloadAt(batch, 0, sep, 0) == Join([], sep);
  }

  /** A negative maxMessages gives no groups: the drained batch is sent nowhere. */
  lemma NegativeMaxSendsNothing(batch: seq<string>, max: int, sep: string)
    requires max < 0
    ensures Groups(batch, max) == [] && Payloads(batch, max, sep) == []
  {
  }

  /** The send loop's slice for group i is payload i. */
  lemma PayloadSlice(batch: seq<string>, max: int, sep: string, i: nat)
    requires i < GroupCount(|batch|, max)
    ensures 0 <= i * max <= Min(i * max + max, |batch|) <= |batch|
    ensures Payloads(batch, max, sep)[i] == Join(batch[i * max .. Min(i * max + max, |batch|)], sep)
  {
    SliceBounds(|batch|, max, i);
  }

  /** The bounds the send loop computes for round i cut out payload i. */
  lemma PayloadRound(batch: seq<string>, max: int, sep: string, i: nat, start: int, end: int)
    requires i < GroupCount(|batch|, max)
    requires start == i * max
    requires end == if start + max > |batch| then |batch| else start + max
    ensures 0 <= start <= end <= |batch|
    ensures Payloads(batch, max, sep)[i] == Join(batch[start..end], sep)
  {
    PayloadSlice(batch, max, sep, i);
  }

  /** Extending a prefix of s by one entry. */
  lemma PrefixSnoc(s: seq<string>, i: nat)
    requires i < |s|
    ensures s[..i + 1] == s[..i] + [s[i]]
  {
  }

  /**
   * The number of send rounds of a cycle: the length of what groupInMax
   * returns for the placeholder slice make([]int, length).
   */
  method RoundCount(length: nat, max: int) returns (n: nat)
    ensures n == GroupCount(length, max)
  {
    var group := GroupInMax(Zeros(length), max);
    n := |group|;
  }

  /**
   * The drain loop's test on the seen set decides the step: when `seen` holds
   * exactly the texts collected from the first k, receiving text k extends
   * the batch by it if and only if `seen` does not hold it.
   */
  lemma DedupStep(s: seq<string>, k: nat, seen: set<string>)
    requires k < |s|
    requires forall x :: x in seen <==> x in Dedup(s[..k])
    ensures Dedup(s[..k + 1]) == if s[k] in seen then Dedup(s[..k]) else Dedup(s[..k]) + [s[k]]
  {
    assert s[..k + 1][..k] == s[..k];
  }

  /**
   * delayNotify: the wrapped sender, the batching settings, the inbox channel
   * (as the sequence of queued texts), whether Close has run, and the ghost
   * trace of every payload handed to the wrapped sender.
   */
  class DelayNotify {
    const inner: Notify
    var sep: string
    var maxMessages: int
    var collectFreq: int
    var inbox: seq<string>
    var closed: bool
    ghost var sent: seq<string>

    ghost predicate Valid()
      reads this, inner
    {
      inner.Valid() && |inbox| <= InboxCapacity
    }

    /**
     * NewDelayNotifier: wraps a fresh sender and starts with the default
     * separator, 5 messages per group, an empty inbox of capacity 1000 and a
     * 500 ms collection period.
     */
    constructor (webhookUrlFormat: string, textBodyFormat: string, tokens: seq<string>)
      ensures Valid() && fresh(inner)
      ensures inner.webhookUrlFormat == webhookUrlFormat && inner.textBodyFormat == textBodyFormat
      ensures inner.tokens == tokens && inner.counter == 0 && inner.identity == ""
      ensures inner.httpMethod == "POST" && inner.client == DefaultClient
      ensures inner.headers == map["Content-Type" := "application/json"]
      ensures sep == DefaultSep && |sep| == 7
      ensures maxMessages == DefaultMaxMessages && collectFreq == DefaultCollectFreq
      ensures inbox == [] && !closed && sent == []
    {
      inner := new Notify(webhookUrlFormat, textBodyFormat, tokens);
      sep := DefaultSep;
      maxMessages := DefaultMaxMessages;
      collectFreq := DefaultCollectFreq;
      inbox := [];
      closed := false;
      sent := [];
    }

    method SetSep(sep: string)
      modifies this`sep
      ensures this.sep == sep
    {
      this.sep := sep;
    }

    method SetCollectFreq(freq: int)
      modifies this`collectFreq
      ensures collectFreq == freq
    {
      collectFreq := freq;
    }

    method SetMaxMessages(maxMessages: int)
      modifies this`maxMessages
      ensures this.maxMessages == maxMessages
    {
      this.maxMessages := maxMessages;
    }

    /** SendMessage: queue the text and return nil. */
    method SendMessage(message: string) returns (err: Option<SendError>)
      requires Valid() && !closed && |inbox| < InboxCapacity
      modifies this`inbox
      ensures Valid()
      ensures inbox == old(inbox) + [message] && err == None
    {
      inbox := inbox + [message];
      err := None;
    }

    /**
     * The drain loop of sendCollectedMessages: receive from the inbox until
     * it is empty, keeping each text the first time it is seen (the
     * mapMessage set) and in arrival order.
     */
    method Drain() returns (collected: seq<string>)
      modifies this`inbox
      ensures inbox == [] && collected == Dedup(old(inbox))
    {
      ghost var queued := inbox;
      ghost var taken := 0;
      var seen: set<string> := {};
      collected := [];
      while inbox != []
        invariant taken <= |queued| && inbox == queued[taken..]
        invariant collected == Dedup(queued[..taken])
        invariant forall x :: x in seen <==> x in collected
        decreases |inbox|
      {
        var msg := inbox[0];
        inbox := inbox[1..];
        DedupStep(queued, taken, seen);
        if msg !in seen {
          collected := collected + [msg];
          seen := seen + {msg};
        }
        taken := taken + 1;
      }
      assert queued[..taken] == queued;
    }

    /**
     * sendCollectedMessages: one collection cycle. Nothing happens when the
     * inbox is empty. Otherwise the whole inbox is drained, repeated texts
     * are dropped keeping first occurrences, and payload i of
     * Payloads(batch, maxMessages, sep) is handed to the wrapped sender with
     * exchange outcome outcomes(i); a failed payload is only logged, and the
     * remaining payloads are still sent. Nothing is put back in the inbox.
     */
    method SendCollectedMessages(sprintf: (string, string) -> string, outcomes: nat -> Outcome)
      requires Valid()
      modifies this`inbox, this`sent, inner`counter
      ensures Valid()
      ensures old(inbox) == [] ==> sent == old(sent) && inner.counter == old(inner.counter)
      ensures inbox == []
      ensures sent == old(sent) + Payloads(Dedup(old(inbox)), maxMessages, sep)
      ensures inner.counter
           == Steps(old(inner.counter), |inner.tokens|, |Payloads(Dedup(old(inbox)), maxMessages, sep)|)
    {
      if |inbox| == 0 {
        return;
      }
      var collected := Drain();
      var collectedLen := |collected|;
      if collectedLen == 0 {
        return;
      }
      SendBatch(collected, sprintf, outcomes);
    }

    /**
     * The send loop of sendCollectedMessages: groupInMax over a placeholder
     * slice of the batch's length gives the number of rounds, and round i
     * hands the batch entries [i * max, min(i * max + max, len)), joined with
     * sep, to the wrapped sender.
     */
    method SendBatch(collected: seq<string>, sprintf: (string, string) -> string, outcomes: nat -> Outcome)
      requires inner.Valid()
      modifies this`sent, inner`counter
      ensures inner.Valid()
      ensures sent == old(sent) + Payloads(collected, maxMessages, sep)
      ensures inner.counter
           == Steps(old(inner.counter), |inner.tokens|, |Payloads(collected, maxMessages, sep)|)
    {
      var rounds := RoundCount(|collected|, maxMessages);
      ghost var payloads := Payloads(collected, maxMessages, sep);
      var i := 0;
      while i < rounds
        invariant rounds == |payloads|
        invariant 0 <= i <= rounds
        invariant sent == old(sent) + payloads[..i]
        invariant inner.Valid()
        invariant inner.counter == Steps(old(inner.counter), |inner.tokens|, i)
      {
        var err := SendRound(collected, i, sprintf, outcomes(i));
        // a failed payload is logged and the loop carries on
        PrefixSnoc(payloads, i);
        i := i + 1;
      }
      assert payloads[..i] == payloads;
    }

    /**
     * Round i of the send loop: start = i * maxMessages, end = start +
     * maxMessages clamped to the batch length, and the slice between them,
     * joined with sep, handed to the wrapped sender and recorded in the trace.
     * The error is what the sender returned for the exchange outcome.
     */
    method SendRound(collected: seq<string>, i: nat, sprintf: (string, string) -> string, outcome: Outcome)
      returns (err: Option<SendError>)
      requires inner.Valid() && i < GroupCount(|collected|, maxMessages)
      modifies this`sent, inner`counter
      ensures inner.Valid()
      ensures sent == old(sent) + [Payloads(collected, maxMessages, sep)[i]]
      ensures inner.counter == NextCounter(old(inner.counter), |inner.tokens|)
      ensures err == if inner.UrlAt(old(inner.counter), sprintf) == "" then Some(NoWebhookUrl)
                     else OutcomeError(outcome)
    {
      var collectedLen := |collected|;
      var start := i * maxMessages;
      var end := start + maxMessages;
      if end > collectedLen {
        end := collectedLen;
      }
      PayloadRound(collected, maxMessages, sep, i, start, end);
      var payload := Join(collected[start..end], sep);
      var request;
      err, request := inner.SendMessage(payload, sprintf, outcome);
      sent := sent + [payload];
    }

    /**
     * Close: the worker runs one final cycle and stops, then the inbox is
     * sealed; no message may be queued afterwards. Close must be called at
     * most once (closing a closed channel panics in Go).
     */
    method Close(sprintf: (string, string) -> string, outcomes: nat -> Outcome) returns (err: Option<SendError>)
      requires Valid() && !closed
      modifies this`inbox, this`sent, this`closed, inner`counter
      ensures Valid() && closed && err == None
      ensures inbox == []
      ensures sent == old(sent) + Payloads(Dedup(old(inbox)), maxMessages, sep)
      ensures inner.counter
           == Steps(old(inner.counter), |inner.tokens|, |Payloads(Dedup(old(inbox)), maxMessages, sep)|)
    {
      SendCollectedMessages(sprintf, outcomes);
      closed := true;
      err := None;
    }
  }

  /** A burst a, b, a, b, b is queued in arrival order, repeats included. */
  method BurstQueued() returns (dn: DelayNotify)
    ensures fresh(dn) && fresh(dn.inner)
    ensures dn.Valid() && !dn.closed && dn.sent == []
    ensures dn.maxMessages == DefaultMaxMessages && dn.sep == DefaultSep
    ensures dn.inbox == ["a", "b", "a", "b", "b"]
  {
    dn := new DelayNotify("%s", "%s", ["t"]);
    var e := dn.SendMessage("a");
    e := dn.SendMessage("b");
    e := dn.SendMessage("a");
    e := dn.SendMessage("b");
    e := dn.SendMessage("b");
  }

  /**
   * One cycle over the queued burst delivers the single payload
   * Join([a, b], sep) and leaves the inbox empty.
   */
  method BurstOneCycle(sprintf: (string, string) -> string, outcomes: nat -> Outcome)
    returns (dn: DelayNotify)
    ensures dn.inbox == [] && dn.sent == [Join(["a", "b"], DefaultSep)]
  {
    DedupBurst("a", "b");
    SmallBatchOnePayload(["a", "b"], 5, DefaultSep);
    dn := BurstQueued();
    dn.SendCollectedMessages(sprintf, outcomes);
  }

  /** Close flushes what is still queued and then seals the engine. */
  method CloseFlushes(sprintf: (string, string) -> string, outcomes: nat -> Outcome)
    returns (dn: DelayNotify)
    ensures dn.closed && dn.inbox == [] && dn.sent == ["a"]
  {
    dn := new DelayNotify("%s", "%s", ["t"]);
    var e := dn.SendMessage("a");
    assert Dedup(["a"]) == ["a"] by { assert ["a"][..0] == []; }
    SmallBatchOnePayload(["a"], 5, DefaultSep);
    e := dn.Close(sprintf, outcomes);
  }
}
