/** The queue between the updater's log thread and whoever asks for its messages
    (libwallet/src/api_impl/owner_updater.rs, api/src/owner.rs). */
module MessageQueue {
  import opened Bounds
  import opened Sums

  const MESSAGE_QUEUE_MAX_LEN: nat := 10_000

  function Reversed<T>(s: seq<T>): (r: seq<T>)
    ensures |r| == |s|
  {
    seq(|s|, i requires 0 <= i < |s| => s[|s| - 1 - i])
  }

  // ---------- The two operations ----------

  function Pushed<T>(queue: seq<T>, m: T): seq<T> {
    ([m] + queue)[..Min(|queue| + 1, MESSAGE_QUEUE_MAX_LEN)]
  }

  function Split<T>(queue: seq<T>, count: nat): (seq<T>, seq<T>) {
    var index := SaturatingSub(|queue|, count);
    (queue[..index], queue[index..])
  }

  /** The shared vector. Each method runs under its lock. */
  class StatusQueue<T> {
    var messages: seq<T>

    constructor ()
      ensures messages == []
    {
      messages := [];
    }

    method Receive(m: T)
      modifies this
      ensures messages == Pushed(old(messages), m)
    {
      messages := [m] + messages;
      ghost var all := messages;
      while |messages| > MESSAGE_QUEUE_MAX_LEN
        invariant |messages| <= |all| && messages == all[..|messages|]
        invariant |messages| >= Min(|all|, MESSAGE_QUEUE_MAX_LEN)
      {
        messages := messages[..|messages| - 1];
      }
    }

    method GetUpdaterMessages(count: nat) returns (batch: seq<T>)
      modifies this
      ensures (messages, batch) == Split(old(messages), count)
    {
      var index := SaturatingSub(|messages|, count);
      batch := messages[index..];
      messages := messages[..index];
    }
  }

  /** A message is queued in front, and only beyond ten thousand messages is the oldest one dropped. A
      request gets as many of the oldest messages as it asks for, or all there are. */
  lemma QueueSizes<T>(queue: seq<T>, m: T, count: nat)
    ensures var pushed := Pushed(queue, m);
      |pushed| == (if |queue| < 10_000 then |queue| + 1 else 10_000) && pushed[0] == m
      && forall i :: 1 <= i < |pushed| ==> pushed[i] == queue[i - 1]
    ensures var (rest, batch) := Split(queue, count);
      |batch| == (if count < |queue| then count else |queue|) && rest + batch == queue
  {
  }

  // ---------- Runs ----------

  datatype Event<T> = Send(message: T) | Get(count: nat)

  /** Everything sent, oldest first; the queue; the batches delivered; and how many messages fell off
      the end of the queue. */
  datatype Trace<T> = Trace(sent: seq<T>, queue: seq<T>, batches: seq<seq<T>>, trimmed: nat)

  function Play<T>(events: seq<Event<T>>): Trace<T> {
    if events == [] then Trace([], [], [], 0)
    else
      var t := Play(events[..|events| - 1]);
      match events[|events| - 1]
      case Send(m) =>
        Trace(t.sent + [m], Pushed(t.queue, m), t.batches, t.trimmed + (|t.queue| + 1 - |Pushed(t.queue, m)|))
      case Get(count) =>
        var (rest, batch) := Split(t.queue, count);
        Trace(t.sent, rest, t.batches + [batch], t.trimmed)
  }

  /** The delivered batches, each turned around, one after the other. */
  function Joined<T>(batches: seq<seq<T>>): seq<T> {
    if batches == [] then [] else Joined(batches[..|batches| - 1]) + Reversed(batches[|batches| - 1])
  }

  /** `batch` is what was sent from position `from` on, newest first. */
  ghost predicate StretchAt<T>(sent: seq<T>, batch: seq<T>, from: nat) {
    from + |batch| <= |sent| && batch == Reversed(sent[from..from + |batch|])
  }

  /** The batches are disjoint stretches of what was sent, in order, all of it before `end`. */
  ghost predicate Stretches<T>(sent: seq<T>, batches: seq<seq<T>>, end: nat) {
    end <= |sent|
    && (batches == [] ||
        var last := batches[|batches| - 1];
        exists from: nat :: StretchAt(sent, last, from) && from + |last| <= end
                            && Stretches(sent, batches[..|batches| - 1], from))
  }

  /** The queue is the newest stretch of what was sent. */
  ghost predicate Window<T>(sent: seq<T>, queue: seq<T>) {
    |queue| <= |sent| && StretchAt(sent, queue, |sent| - |queue|)
  }

  lemma ReversedSnoc<T>(s: seq<T>, m: T)
    ensures Reversed(s + [m]) == [m] + Reversed(s)
  {
  }

  lemma ReversedTake<T>(s: seq<T>, n: nat)
    requires n <= |s|
    ensures Reversed(s[|s| - n..]) == Reversed(s)[..n]
  {
  }

  lemma SuffixSnoc<T>(s: seq<T>, m: T, from: nat, n: nat)
    requires from <= |s| && n <= |s| - from + 1
    ensures (s[from..] + [m])[|s| - from + 1 - n..] == (s + [m])[|s| + 1 - n..]
  {
  }

  lemma WindowIff<T>(sent: seq<T>, queue: seq<T>)
    ensures Window(sent, queue) <==> |queue| <= |sent| && queue == Reversed(sent[|sent| - |queue|..])
  {
    hide Reversed;
    if |queue| <= |sent| {
      var from := |sent| - |queue|;
      assert sent[from..from + |queue|] == sent[from..];
    }
  }

  lemma PushedIs<T>(queue: seq<T>, m: T)
    ensures var n := |Pushed(queue, m)|;
      n <= |queue| + 1 && n <= MESSAGE_QUEUE_MAX_LEN && Pushed(queue, m) == ([m] + queue)[..n]
  {
  }

  lemma PushWindow<T>(sent: seq<T>, queue: seq<T>, m: T)
    requires Window(sent, queue)
    ensures Window(sent + [m], Pushed(queue, m))
  {
    hide Reversed, Pushed, Window;
    WindowIff(sent, queue);
    PushedIs(queue, m);
    var n, from := |Pushed(queue, m)|, |sent| - |queue|;
    ReversedSnoc(sent[from..], m);
    ReversedTake(sent[from..] + [m], n);
    SuffixSnoc(sent, m, from, n);
    WindowIff(sent + [m], Pushed(queue, m));
  }

  lemma SplitWindow<T>(sent: seq<T>, queue: seq<T>, count: nat)
    requires Window(sent, queue)
    ensures var (rest, batch) := Split(queue, count);
      Window(sent, rest) && |batch| + |rest| == |queue| && StretchAt(sent, batch, |sent| - |queue|)
  {
    var (rest, batch) := Split(queue, count);
    var start := |sent| - |queue|;
    assert rest == Reversed(sent[|sent| - |rest|..|sent| - |rest| + |rest|]);
    assert batch == Reversed(sent[start..start + |batch|]);
  }

  /** The queue is bounded and the newest stretch, and the deliveries are earlier ones. */
  ghost predicate Newest<T>(t: Trace<T>) {
    |t.queue| <= MESSAGE_QUEUE_MAX_LEN && Window(t.sent, t.queue) && Stretches(t.sent, t.batches, |t.sent| - |t.queue|)
  }

  lemma SendKeepsNewest<T>(t: Trace<T>, next: Trace<T>, m: T)
    requires Newest(t) && next.sent == t.sent + [m] && next.queue == Pushed(t.queue, m) && next.batches == t.batches
    ensures Newest(next)
  {
    PushWindow(t.sent, t.queue, m);
    SmallPush(t.queue, m);
    hide Pushed, Stretches, StretchAt;
    StretchesGrow(t.sent, [m], t.batches, |t.sent| - |t.queue|, |next.sent| - |next.queue|);
  }

  lemma GetKeepsNewest<T>(t: Trace<T>, next: Trace<T>, count: nat)
    requires Newest(t) && next.sent == t.sent && next.queue == Split(t.queue, count).0
    requires next.batches == t.batches + [Split(t.queue, count).1]
    ensures Newest(next)
  {
    hide Split, Stretches, StretchAt;
    SplitWindow(t.sent, t.queue, count);
    StretchesSnoc(t.sent, t.batches, Split(t.queue, count).1, |t.sent| - |t.queue|);
  }

  /** For every interleaving of sends and requests: the queue is the newest stretch of what was sent,
      newest first and bounded, and no message has been delivered twice or is still queued after its
      delivery. */
  lemma {:induction false} NewestWindow<T>(events: seq<Event<T>>)
    ensures Newest(Play(events))
  {
    if events != [] {
      NewestWindow(events[..|events| - 1]);
      hide Newest, Pushed, Split;
      var before, t := Play(events[..|events| - 1]), Play(events);
      match events[|events| - 1]
      case Send(m) => SendKeepsNewest(before, t, m);
      case Get(count) => GetKeepsNewest(before, t, count);
    }
  }

  lemma StretchesSnoc<T>(sent: seq<T>, batches: seq<seq<T>>, batch: seq<T>, from: nat)
    requires Stretches(sent, batches, from) && StretchAt(sent, batch, from)
    ensures Stretches(sent, batches + [batch], from + |batch|)
  {
    var all := batches + [batch];
    assert all[..|all| - 1] == batches && all[|all| - 1] == batch;
    assert StretchAt(sent, all[|all| - 1], from) && Stretches(sent, all[..|all| - 1], from);
  }

  lemma SmallPush<T>(queue: seq<T>, m: T)
    ensures |Pushed(queue, m)| <= MESSAGE_QUEUE_MAX_LEN && |Pushed(queue, m)| <= |queue| + 1
  {
  }

  lemma {:induction false} StretchesGrow<T>(sent: seq<T>, more: seq<T>, batches: seq<seq<T>>, end: nat, later: nat)
    requires Stretches(sent, batches, end) && end <= later <= |sent + more|
    ensures Stretches(sent + more, batches, later)
  {
    if batches != [] {
      var last := batches[|batches| - 1];
      var from: nat :| StretchAt(sent, last, from) && from + |last| <= end
          && Stretches(sent, batches[..|batches| - 1], from);
      StretchesGrow(sent, more, batches[..|batches| - 1], from, from);
      assert (sent + more)[from..from + |last|] == sent[from..from + |last|];
      assert StretchAt(sent + more, last, from);
    }
  }

  /** What was delivered, turned around, followed by the queue, is the whole history exactly when nothing
      was trimmed; and nothing but what was trimmed is lost. */
  ghost predicate Complete<T>(joined: seq<T>, queue: seq<T>, trimmed: nat, sent: seq<T>) {
    && |joined| + |queue| + trimmed == |sent|
    && (joined + Reversed(queue) == sent <==> trimmed == 0)
  }

  lemma SendKeepsComplete<T>(joined: seq<T>, queue: seq<T>, trimmed: nat, sent: seq<T>, m: T)
    requires Complete(joined, queue, trimmed, sent)
    ensures |Pushed(queue, m)| <= |queue| + 1
    ensures Complete(joined, Pushed(queue, m), trimmed + (|queue| + 1 - |Pushed(queue, m)|), sent + [m])
  {
    var next := Pushed(queue, m);
    SmallPush(queue, m);
    if trimmed == 0 && |next| == |queue| + 1 {
      UntrimmedPush(queue, m);
      hide Pushed, Reversed;
      Assoc(joined, Reversed(queue), [m]);
    } else {
      hide Pushed, Reversed;
      assert |joined + Reversed(next)| < |sent + [m]|;
    }
  }

  lemma GetKeepsComplete<T>(joined: seq<T>, queue: seq<T>, trimmed: nat, sent: seq<T>, count: nat)
    requires Complete(joined, queue, trimmed, sent)
    ensures Complete(joined + Reversed(Split(queue, count).1), Split(queue, count).0, trimmed, sent)
  {
    var (rest, batch) := Split(queue, count);
    SplitTurned(queue, count);
    hide Split, Reversed;
    Assoc(joined, Reversed(batch), Reversed(rest));
  }

  lemma JoinedSnoc<T>(batches: seq<seq<T>>, batch: seq<T>)
    ensures Joined(batches + [batch]) == Joined(batches) + Reversed(batch)
  {
    var all := batches + [batch];
    assert all[..|all| - 1] == batches && all[|all| - 1] == batch;
  }

  /** For every interleaving: the deliveries followed by the queue are the whole history exactly when
      nothing was trimmed, and nothing else is ever lost. */
  lemma {:induction false} HistoryIff<T>(events: seq<Event<T>>)
    ensures var t := Play(events);
      && |Joined(t.batches)| + |t.queue| + t.trimmed == |t.sent|
      && (Joined(t.batches) + Reversed(t.queue) == t.sent <==> t.trimmed == 0)
  {
    HistoryComplete(events);
  }

  lemma {:induction false} HistoryComplete<T>(events: seq<Event<T>>)
    ensures Complete(Joined(Play(events).batches), Play(events).queue, Play(events).trimmed, Play(events).sent)
  {
    if events != [] {
      HistoryComplete(events[..|events| - 1]);
      var before := Play(events[..|events| - 1]);
      hide Complete, Pushed, Split, Reversed, Joined;
      match events[|events| - 1]
      case Send(m) =>
        SendKeepsComplete(Joined(before.batches), before.queue, before.trimmed, before.sent, m);
      case Get(count) =>
        GetKeepsComplete(Joined(before.batches), before.queue, before.trimmed, before.sent, count);
        JoinedSnoc(before.batches, Split(before.queue, count).1);
    }
  }

  lemma UntrimmedPush<T>(queue: seq<T>, m: T)
    requires |Pushed(queue, m)| == |queue| + 1
    ensures Reversed(Pushed(queue, m)) == Reversed(queue) + [m]
  {
    assert Pushed(queue, m) == [m] + queue;
  }

  lemma SplitTurned<T>(queue: seq<T>, count: nat)
    ensures var (rest, batch) := Split(queue, count);
      |rest| + |batch| == |queue| && Reversed(queue) == Reversed(batch) + Reversed(rest)
  {
  }
}
