/**
The send half of the bridge client as an object: the queue, the ledger, the filter and the table of
sends in flight, and the handler of group messages that asks the filter. Every method performs one event
of the machine in `SendPath`.
*/
module SendCalls {
  import opened Options
  import opened Clock
  import opened InsertionMap
  import L = SendDedupe
  import Q = SendQueue
  import E = EchoFilter
  import P = SendPath

  // A message of the listener; `event` is what it would be forwarded as, if it can be.
  datatype Incoming = Incoming(isGroup: bool, threadId: string, event: Option<E.Message>)

  // Each post was noted as sent, with its text, when Zalo answered.
  ghost predicate Recorded(history: seq<E.Note>, posts: seq<P.Post>, texts: seq<string>) {
    && |texts| == |posts|
    && (forall i :: 0 <= i < |posts| ==> E.Sent(posts[i].msgId, texts[i], posts[i].at) in history)
  }

  lemma LaterNotesKeepRecorded(history: seq<E.Note>, n: E.Note, posts: seq<P.Post>, texts: seq<string>)
    requires Recorded(history, posts, texts)
    ensures Recorded(history + [n], posts, texts)
  {
  }

  // A copy of a post: its id within a day, or its text in a self message within a minute.
  predicate IsCopy(post: P.Post, text: string, m: E.Message, now: int) {
    || (m.msgId == post.msgId && now - post.at <= DAY_MS)
    || (m.isSelf && m.text == Some(text) && now - post.at <= E.TEXT_WINDOW_MS)
  }

  // The copies of a post that Zalo plays back are the bridge's own.
  lemma PostIsOwn(history: seq<E.Note>, posts: seq<P.Post>, texts: seq<string>, i: nat, m: E.Message, now: int)
    requires E.InOrder(history) && Recorded(history, posts, texts) && i < |posts|
    requires IsCopy(posts[i], texts[i], m, now)
    ensures E.IsOwn(history, m, now)
  {
    var n := E.Sent(posts[i].msgId, texts[i], posts[i].at);
    var k :| 0 <= k < |history| && history[k] == n;
    assert history == history[..k] + [n] + history[k + 1..];
    if m.msgId == n.msgId && now - n.at <= DAY_MS {
      E.OwnIdIsOwn(history[..k], history[k + 1..], n, m, now);
    } else {
      E.OwnTextIsOwn(history[..k], history[k + 1..], n, m, now);
    }
  }

  // A message of the chosen group, from the live listener, that is not of the own account or has no text.
  predicate FromAnother(m: Incoming, live: bool, groupId: Option<string>) {
    && live && groupId.Some? && m.isGroup && m.threadId == groupId.value
    && m.event.Some? && (!m.event.value.isSelf || m.event.value.text.None?)
  }

  // No message with this id was noted as sent within a day.
  ghost predicate IdNotSent(history: seq<E.Note>, msgId: string, now: int) {
    forall n :: n in history && n.Sent? && n.msgId == msgId ==> now - n.at > DAY_MS
  }

  class Sender {
    const queue: Q.SendQueue<string>
    const dedupe: L.SendDedupe
    const echo: E.EchoFilter
    var inflight: map<string, P.Stage>

    // The texts of the waiting sends, in order, and of the send that has its turn.
    var texts: seq<string>
    var text: string

    // The machine this object follows, from the ledger and the time it started with; the text of each
    // post; and when the message of the running send was handed to Zalo, if it was.
    ghost var path: P.Path
    ghost const ledger0: L.Table
    ghost const now0: int
    ghost var postTexts: seq<string>
    ghost var calling: Option<int>

    ghost predicate Valid() reads this, queue, dedupe, echo {
      && queue.Valid() && dedupe.Valid() && echo.Valid()
      && dedupe.ttlMs == DAY_MS && path.config == P.Config(queue.limits, dedupe.max)
      && queue.clock <= path.clock && dedupe.clock <= path.clock
      && path.queue == queue.View() && path.log == queue.log
      && path.ledger == dedupe.entries && path.inflight == inflight
      && |texts| == |queue.waiting|
      && P.Reachable(path, ledger0, now0)
      && Recorded(echo.history, path.posts, postTexts)
      && (calling.Some? ==> queue.phase.Running? && E.Sending(text, calling.value) in echo.history)
    }

    ghost predicate Later(now: int) reads this, echo {
      path.clock <= now && echo.clock <= now
    }

    constructor (limits: Q.Limits, max: nat, file: L.File, now: int)
      ensures Valid() && fresh(queue) && fresh(dedupe) && fresh(echo)
      ensures path == P.Initial(P.Config(limits, max), L.Loaded(file, now), now)
    {
      queue := new Q.SendQueue(limits, now);
      dedupe := new L.SendDedupe(DAY_MS, max, file, now);
      echo := new E.EchoFilter(now);
      inflight, texts, text := map[], [], "";
      postTexts, calling := [], None;
      ledger0, now0 := L.Loaded(file, now), now;
      path := P.Initial(P.Config(limits, max), L.Loaded(file, now), now);
      new;
      assert path == P.Run(path, []);
    }

    // A caller gets the id of a finished send, joins the flight with its key, or opens one; offline, its
    // flight fails at once.
    method Send(key: string, text: string, online: bool, now: int) returns (reply: P.Reply)
      requires Valid() && Later(now)
      modifies this`path, this`inflight, this`texts, queue, dedupe
      ensures Valid() && path == P.Step(old(path), P.Send(key, online), now)
      ensures reply == P.ReplyTo(old(path), key, now)
      ensures texts == if reply.Opened? && online then old(texts) + [text] else old(texts)
      ensures echo.history == old(echo.history)
    {
      P.StepIsReachable(path, P.Send(key, online), now, ledger0, now0);
      path := P.Step(path, P.Send(key, online), now);
      var done := dedupe.Get(key, now);
      if done.Some? {
        return P.Done(done.value);
      }
      if key in inflight {
        return P.Joined(inflight[key]);
      }
      Open(key, text, online);
      reply := P.Opened;
    }

    // `sendOnce` up to its await, and its entry in the table of flights.
    method Open(key: string, text: string, online: bool)
      requires queue.Valid() && |texts| == |queue.waiting|
      modifies this`inflight, this`texts, queue
      ensures queue.Valid() && |texts| == |queue.waiting|
      ensures queue.clock == old(queue.clock) && queue.log == old(queue.log)
      ensures queue.View() == if online then Q.Enqueued(old(queue.View()), key) else old(queue.View())
      ensures inflight == old(inflight)[key := if online then P.Queued else P.Failed]
      ensures texts == if online then old(texts) + [text] else old(texts)
    {
      if !online {
        inflight := inflight[key := P.Failed];
        return;
      }
      texts := texts + [text];
      queue.Enqueue(key);
      inflight := inflight[key := P.Queued];
    }

    method Begin(random: real, now: int)
      requires Valid() && Later(now) && queue.phase.Idle? && queue.waiting != []
      modifies this`path, this`text, this`texts, queue
      ensures Valid() && path == P.Step(old(path), P.Begin(random), now)
      ensures text == old(texts)[0] && texts == old(texts)[1..] && echo.history == old(echo.history)
    {
      P.StepIsReachable(path, P.Begin(random), now, ledger0, now0);
      path := P.Step(path, P.Begin(random), now);
      text := texts[0];
      texts := texts[1..];
      queue.Begin(random, now);
    }

    method Wake(now: int)
      requires Valid() && Later(now) && (queue.phase.Spacing? || queue.phase.Waiting?)
      modifies this`path, queue
      ensures Valid() && path == P.Step(old(path), P.Wake, now)
      ensures echo.history == old(echo.history)
    {
      P.StepIsReachable(path, P.Wake, now, ledger0, now0);
      path := P.Step(path, P.Wake, now);
      queue.Wake(now);
    }

    // One turn of the cap loop. A send that starts while connected is noted before it is handed to Zalo.
    method Check(ticks: seq<int>, online: bool, now: int) returns (started: bool)
      requires Valid() && Later(now) && queue.phase.Checking?
      requires |ticks| == |queue.starts| && Q.Readings(ticks, path.clock, now)
      modifies this`path, this`calling, queue, echo
      ensures Valid() && path == P.Step(old(path), P.Check(ticks), now)
      ensures calling == if started && online then Some(now) else None
      ensures echo.history == old(echo.history) + if started && online then [E.Sending(old(text), now)] else []
    {
      ghost var next := P.Step(path, P.Check(ticks), now);
      assert P.Reachable(next, ledger0, now0) by {
        P.StepIsReachable(path, P.Check(ticks), now, ledger0, now0);
      }
      assert next == path.(clock := now, queue := Q.Checked(path.queue, ticks, now),
                           log := if Q.Starts(path.queue, ticks) then path.log + [now] else path.log);
      started := queue.Check(ticks, now);
      path := next;
      if started && online {
        HandToZalo(now);
      }
    }

    method HandToZalo(now: int)
      requires echo.Valid() && echo.clock <= now && Recorded(echo.history, path.posts, postTexts)
      modifies this`calling, echo
      ensures echo.Valid() && Recorded(echo.history, path.posts, postTexts)
      ensures echo.history == old(echo.history) + [E.Sending(text, now)]
      ensures calling == Some(now) && E.Sending(text, now) in echo.history
    {
      LaterNotesKeepRecorded(echo.history, E.Sending(text, now), path.posts, postTexts);
      echo.NoteSending(text, now);
      calling := Some(now);
    }

    // Zalo gave the message of the running send an id.
    method Succeeded(id: string, now: int)
      requires Valid() && Later(now) && queue.phase.Running? && !P.AnyPosted(inflight) && calling.Some?
      modifies this`path, this`calling, this`inflight, this`postTexts, queue, echo
      ensures Valid() && path == P.Step(old(path), P.Finish(Some(id)), now)
      ensures echo.history == old(echo.history) + [E.Sent(id, old(text), now)]
    {
      ghost var next := P.Step(path, P.Finish(Some(id)), now);
      assert P.Reachable(next, ledger0, now0) by {
        P.StepIsReachable(path, P.Finish(Some(id)), now, ledger0, now0);
      }
      assert next == P.AfterFinish(path.(clock := now), Some(id), now);
      var key := queue.phase.task;
      calling := None;
      RecordPost(P.Post(key, id, now));
      inflight := inflight[key := P.Posted(id)];
      path := next;
      queue.Settle();
    }

    // The running send was not accepted, or was not handed to Zalo at all.
    method Failed(now: int)
      requires Valid() && Later(now) && queue.phase.Running?
      modifies this`path, this`calling, this`inflight, queue
      ensures Valid() && path == P.Step(old(path), P.Finish(None), now)
      ensures echo.history == old(echo.history)
    {
      P.StepIsReachable(path, P.Finish(None), now, ledger0, now0);
      path := P.Step(path, P.Finish(None), now);
      calling := None;
      inflight := inflight[queue.phase.task := P.Failed];
      queue.Settle();
    }

    method RecordPost(post: P.Post)
      requires echo.Valid() && echo.clock <= post.at && Recorded(echo.history, path.posts, postTexts)
      modifies this`postTexts, echo
      ensures echo.Valid() && echo.history == old(echo.history) + [E.Sent(post.msgId, text, post.at)]
      ensures Recorded(echo.history, path.posts + [post], postTexts)
    {
      LaterNotesKeepRecorded(echo.history, E.Sent(post.msgId, text, post.at), path.posts, postTexts);
      echo.NoteSent(post.msgId, text, post.at);
      postTexts := postTexts + [text];
    }

    // The size of the queue goes down, a little after its task settled.
    method Lower(now: int)
      requires Valid() && Later(now) && queue.settling > 0
      modifies this`path, queue
      ensures Valid() && path == P.Step(old(path), P.Lower, now)
      ensures echo.history == old(echo.history)
    {
      P.StepIsReachable(path, P.Lower, now, ledger0, now0);
      path := P.Step(path, P.Lower, now);
      queue.Lower();
    }

    // The id enters the ledger, and a write of its file is asked for.
    method Save(key: string, now: int)
      requires Valid() && Later(now) && key in inflight && inflight[key].Posted?
      modifies this`path, this`inflight, dedupe
      ensures Valid() && path == P.Step(old(path), P.Save(key), now)
      ensures echo.history == old(echo.history)
      ensures dedupe.waiting == old(dedupe.waiting) + 1
    {
      P.StepIsReachable(path, P.Save(key), now, ledger0, now0);
      path := P.Step(path, P.Save(key), now);
      var id := inflight[key].msgId;
      dedupe.Set(key, id, now);
      dedupe.Persist();
      inflight := inflight[key := P.Saving(id)];
    }

    method Resolve(key: string, now: int)
      requires Valid() && Later(now) && key in inflight && (inflight[key].Saving? || inflight[key].Failed?)
      modifies this`path, this`inflight
      ensures Valid() && path == P.Step(old(path), P.Resolve(key), now)
      ensures echo.history == old(echo.history)
    {
      P.StepIsReachable(path, P.Resolve(key), now, ledger0, now0);
      path := P.Step(path, P.Resolve(key), now);
      inflight := inflight - {key};
    }

    // The handler of messages of a listener; `live` tells whether it is the listener of the current
    // generation, and `push` is what goes on to the outbox. Copies of the bridge's own posts do
    // not, nor does the copy that overtakes the answer to a send.
    method OnMessage(m: Incoming, live: bool, groupId: Option<string>, now: int) returns (push: bool)
      requires Valid() && Later(now)
      modifies echo
      ensures Valid() && echo.history == old(echo.history)
      ensures push <==>
        && live && groupId.Some? && m.isGroup && m.threadId == groupId.value
        && m.event.Some? && !E.IsOwn(echo.history, m.event.value, now)
      ensures push ==> forall i :: 0 <= i < |path.posts| ==> !IsCopy(path.posts[i], postTexts[i], m.event.value, now)
      ensures FromAnother(m, live, groupId) && IdNotSent(echo.history, m.event.value.msgId, now) ==> push
      ensures push && calling.Some? && m.event.value.isSelf && m.event.value.text == Some(text) ==>
        now - calling.value > E.TEXT_WINDOW_MS
    {
      if FromAnother(m, live, groupId) && IdNotSent(echo.history, m.event.value.msgId, now) {
        E.OthersAreForwarded(echo.history, m.event.value, now);
      }
      if !live || groupId.None? || !m.isGroup || m.threadId != groupId.value || m.event.None? {
        return false;
      }
      var own := echo.IsEcho(m.event.value, now);
      push := !own;
      if push {
        forall i | 0 <= i < |path.posts| ensures !IsCopy(path.posts[i], postTexts[i], m.event.value, now) {
          if IsCopy(path.posts[i], postTexts[i], m.event.value, now) {
            PostIsOwn(echo.history, path.posts, postTexts, i, m.event.value, now);
          }
        }
      }
    }

    // In one life of this object, two posts with one key are a day apart.
    lemma OnePostPerKeyAndDay()
      requires Valid() && P.Roomy(path.config) && L.Ordered(ledger0, now0, DAY_MS)
      ensures P.OncePerDay(path.posts)
    {
      var events :| path == P.Run(P.Initial(path.config, ledger0, now0), events);
      P.AtMostOnePostPerKeyAndDay(path.config, ledger0, now0, events);
    }
  }
}
