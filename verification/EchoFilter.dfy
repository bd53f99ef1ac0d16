/**
The filter that recognises the bridge's own messages when Zalo plays them back. It keeps three pruned
lists; the proof is that they always answer like the full history of what was noted.
*/
module EchoFilter {
  import opened Options
  import opened Clock
  import opened InsertionMap

  const TEXT_WINDOW_MS := 60_000

  datatype Recent = Recent(text: string, at: int)

  // `text` is absent when the message has none.
  datatype Message = Message(msgId: string, isSelf: bool, text: Option<string>)

  datatype Note = Sending(text: string, at: int) | Sent(msgId: string, text: string, at: int)

  // ------------------------------------------------------------------------- the naive filter

  // When this id was last noted as sent.
  function LastSent(history: seq<Note>, msgId: string): Option<int> {
    if history == [] then None
    else
      var n := history[|history| - 1];
      if n.Sent? && n.msgId == msgId then Some(n.at) else LastSent(history[..|history| - 1], msgId)
  }

  predicate RecentId(history: seq<Note>, msgId: string, now: int) {
    var last := LastSent(history, msgId);
    last.Some? && now - last.value <= DAY_MS
  }

  predicate RecentText(history: seq<Note>, text: string, now: int) {
    exists n :: n in history && n.text == text && now - n.at <= TEXT_WINDOW_MS
  }

  predicate IsOwn(history: seq<Note>, m: Message, now: int) {
    || RecentId(history, m.msgId, now)
    || (m.isSelf && m.text.Some? && RecentText(history, m.text.value, now))
  }

  // Notes are made by a clock that does not go back.
  ghost predicate InOrder(history: seq<Note>) {
    forall i, j :: 0 <= i < j < |history| ==> history[i].at <= history[j].at
  }

  // ------------------------------------------------------------- the three lists and the history

  ghost predicate SortedTo(list: seq<Recent>, now: int) {
    && (forall i, j :: 0 <= i < j < |list| ==> list[i].at <= list[j].at)
    && (forall i :: 0 <= i < |list| ==> list[i].at <= now)
  }

  ghost predicate Noted(history: seq<Note>, r: Recent) {
    exists n :: n in history && n.text == r.text && n.at == r.at
  }

  predicate Covers(list: seq<Recent>, n: Note) {
    exists r :: r in list && r.text == n.text && n.at <= r.at
  }

  ghost predicate IdsInOrder(ids: seq<Item<int>>, now: int) {
    && (forall i, j :: 0 <= i < j < |ids| ==> ids[i].value <= ids[j].value)
    && (forall i :: 0 <= i < |ids| ==> ids[i].value <= now)
  }

  ghost predicate IdsAgree(ids: seq<Item<int>>, history: seq<Note>, now: int) {
    && Distinct(ids)
    && IdsInOrder(ids, now)
    && (forall id :: Find(ids, id).Some? ==> Find(ids, id) == LastSent(history, id))
    && (forall id :: Find(ids, id).None? ==> !RecentId(history, id, now))
  }

  ghost predicate TextsAgree(sending: seq<Recent>, sent: seq<Recent>, history: seq<Note>, now: int) {
    && SortedTo(sending, now) && SortedTo(sent, now)
    && (forall r :: r in sending || r in sent ==> Noted(history, r))
    && (forall n :: n in history ==> n.at <= now)
    && (forall n :: n in history && now - n.at <= TEXT_WINDOW_MS ==> Covers(sending + sent, n))
  }

  // Where `dropExpired` cuts the list: everything before is expired, the item at the cut is not.
  ghost predicate IsCut(list: seq<Recent>, now: int, i: nat) {
    && i <= |list|
    && (forall j :: 0 <= j < i ==> now - list[j].at > TEXT_WINDOW_MS)
    && (i < |list| ==> now - list[i].at <= TEXT_WINDOW_MS)
  }

  lemma RecentIdOfAppended(history: seq<Note>, n: Note, id: string)
    ensures LastSent(history + [n], id) == if n.Sent? && n.msgId == id then Some(n.at) else LastSent(history, id)
  {
    assert (history + [n])[..|history|] == history;
  }

  lemma LaterKeepsAgreement(ids: seq<Item<int>>, sending: seq<Recent>, sent: seq<Recent>, history: seq<Note>,
                            now: int, later: int)
    requires now <= later
    requires IdsAgree(ids, history, now) && TextsAgree(sending, sent, history, now)
    ensures IdsAgree(ids, history, later) && TextsAgree(sending, sent, history, later)
  {
  }

  lemma NoteSendingAgrees(ids: seq<Item<int>>, sending: seq<Recent>, sent: seq<Recent>, history: seq<Note>,
                          text: string, t: int)
    requires IdsAgree(ids, history, t) && TextsAgree(sending, sent, history, t)
    ensures IdsAgree(ids, history + [Sending(text, t)], t)
    ensures TextsAgree(sending + [Recent(text, t)], sent, history + [Sending(text, t)], t)
  {
    var history' := history + [Sending(text, t)];
    var sending' := sending + [Recent(text, t)];
    forall id ensures LastSent(history', id) == LastSent(history, id) {
      RecentIdOfAppended(history, Sending(text, t), id);
    }
    NotedGrows(history, Sending(text, t));
    forall n | n in history' && t - n.at <= TEXT_WINDOW_MS ensures Covers(sending' + sent, n) {
      if n in history {
        var r :| r in sending + sent && r.text == n.text && n.at <= r.at;
        assert r in sending' + sent;
      } else {
        assert Recent(text, t) in sending' + sent;
      }
    }
  }

  lemma NotedGrows(history: seq<Note>, n: Note)
    ensures forall r :: Noted(history, r) ==> Noted(history + [n], r)
    ensures Noted(history + [n], Recent(n.text, n.at))
  {
    assert n in history + [n];
    forall r | Noted(history, r) ensures Noted(history + [n], r) {
      var m :| m in history && m.text == r.text && m.at == r.at;
      assert m in history + [n];
    }
  }

  lemma RenewKeepsOrder(ids: seq<Item<int>>, msgId: string, t: int)
    requires IdsInOrder(ids, t)
    ensures IdsInOrder(Delete(ids, msgId) + [Item(msgId, t)], t)
  {
    var k := IndexOf(ids, msgId);
    if k < |ids| {
      var d := RemoveAt(ids, k);
      forall a, b | 0 <= a < b < |d| ensures d[a].value <= d[b].value {
        RemovedAt(ids, k, a);
        RemovedAt(ids, k, b);
      }
      forall a | 0 <= a < |d| ensures d[a].value <= t {
        RemovedAt(ids, k, a);
      }
    }
  }

  lemma NoteSentIdsAgree(ids: seq<Item<int>>, history: seq<Note>, msgId: string, text: string, t: int)
    requires IdsAgree(ids, history, t)
    ensures IdsAgree(Delete(ids, msgId) + [Item(msgId, t)], history + [Sent(msgId, text, t)], t)
  {
    var d := Delete(ids, msgId);
    var ids' := d + [Item(msgId, t)];
    var history' := history + [Sent(msgId, text, t)];
    RenewKeepsOrder(ids, msgId, t);
    DeleteIsExact(ids, msgId, msgId);
    AppendIsExact(d, msgId, t, msgId);
    forall id
      ensures LastSent(history', id) == if id == msgId then Some(t) else LastSent(history, id)
      ensures Find(ids', id) == if id == msgId then Some(t) else Find(ids, id)
    {
      RecentIdOfAppended(history, Sent(msgId, text, t), id);
      DeleteIsExact(ids, msgId, id);
      AppendIsExact(d, msgId, t, id);
    }
  }

  lemma RemoveKeepsSorted(list: seq<Recent>, i: nat, now: int)
    requires SortedTo(list, now) && i < |list|
    ensures SortedTo(RemoveAt(list, i), now)
    ensures forall r :: r in RemoveAt(list, i) ==> r in list
    ensures forall r :: r in list ==> r in RemoveAt(list, i) || r == list[i]
  {
  }

  // The sending note that a sent note replaces is covered by the newer sent note.
  lemma NoteSentTextsAgree(sending: seq<Recent>, sending': seq<Recent>, sent: seq<Recent>, history: seq<Note>,
                           msgId: string, text: string, t: int)
    requires TextsAgree(sending, sent, history, t)
    requires sending' == sending ||
      exists i: nat :: i < |sending| && sending[i].text == text && sending' == RemoveAt(sending, i)
    ensures TextsAgree(sending', sent + [Recent(text, t)], history + [Sent(msgId, text, t)], t)
  {
    var history' := history + [Sent(msgId, text, t)];
    var sent' := sent + [Recent(text, t)];
    NotedGrows(history, Sent(msgId, text, t));
    if sending' != sending {
      var i: nat :| i < |sending| && sending[i].text == text && sending' == RemoveAt(sending, i);
      RemoveKeepsSorted(sending, i, t);
    }
    forall n | n in history' && t - n.at <= TEXT_WINDOW_MS ensures Covers(sending' + sent', n) {
      if n.text == text {
        assert Recent(text, t) in sending' + sent';
      } else {
        var r :| r in sending + sent && r.text == n.text && n.at <= r.at;
        assert r in sending' + sent';
      }
    }
  }

  // Cutting both lists changes no answer: what is dropped is expired, and stays so.
  lemma CutTextsAgree(sending: seq<Recent>, sent: seq<Recent>, history: seq<Note>, t: int, i: nat, j: nat)
    requires TextsAgree(sending, sent, history, t) && IsCut(sending, t, i) && IsCut(sent, t, j)
    ensures TextsAgree(sending[i..], sent[j..], history, t)
  {
    forall n | n in history && t - n.at <= TEXT_WINDOW_MS ensures Covers(sending[i..] + sent[j..], n) {
      var r :| r in sending + sent && r.text == n.text && n.at <= r.at;
      assert r in sending ==> r in sending[i..];
      assert r in sent ==> r in sent[j..];
      assert r in sending[i..] + sent[j..];
    }
  }

  // After the cut, a text is listed exactly when it was noted inside its window.
  lemma ListedIsRecent(sending: seq<Recent>, sent: seq<Recent>, history: seq<Note>, t: int, text: string)
    requires TextsAgree(sending, sent, history, t) && IsCut(sending, t, 0) && IsCut(sent, t, 0)
    ensures (exists r :: r in sending + sent && r.text == text) <==> RecentText(history, text, t)
  {
    if r :| r in sending + sent && r.text == text {
      assert Noted(history, r);
      assert t - r.at <= TEXT_WINDOW_MS;
      var n :| n in history && n.text == r.text && n.at == r.at;
    }
    if RecentText(history, text, t) {
      var n :| n in history && n.text == text && t - n.at <= TEXT_WINDOW_MS;
      assert Covers(sending + sent, n);
    }
  }

  // ------------------------------------------------------------------------------------ the class

  class EchoFilter {
    var sentIds: seq<Item<int>>
    var sending: seq<Recent>
    var sent: seq<Recent>
    ghost var history: seq<Note>
    ghost var clock: int

    ghost predicate Valid() reads this {
      InOrder(history) && IdsAgree(sentIds, history, clock) && TextsAgree(sending, sent, history, clock)
    }

    constructor (now: int)
      ensures Valid() && history == [] && clock == now
    {
      sentIds, sending, sent := [], [], [];
      history, clock := [], now;
    }

    method NoteSending(text: string, now: int)
      requires Valid() && clock <= now
      modifies this
      ensures Valid() && clock == now
      ensures history == old(history) + [Sending(text, now)]
    {
      LaterKeepsAgreement(sentIds, sending, sent, history, clock, now);
      NoteSendingAgrees(sentIds, sending, sent, history, text, now);
      sending := sending + [Recent(text, now)];
      history := history + [Sending(text, now)];
      clock := now;
    }

    method NoteSent(msgId: string, text: string, now: int)
      requires Valid() && clock <= now
      modifies this
      ensures Valid() && clock == now
      ensures history == old(history) + [Sent(msgId, text, now)]
    {
      LaterKeepsAgreement(sentIds, sending, sent, history, clock, now);
      NoteSentIdsAgree(sentIds, history, msgId, text, now);
      sentIds := Delete(sentIds, msgId);
      sentIds := sentIds + [Item(msgId, now)];
      ghost var before := sending;
      Consume(text);
      NoteSentTextsAgree(before, sending, sent, history, msgId, text, now);
      sent := sent + [Recent(text, now)];
      history := history + [Sent(msgId, text, now)];
      clock := now;
    }

    // The oldest note of this text being sent gives way to the note that it was sent.
    method Consume(text: string)
      modifies this`sending
      ensures sending == old(sending) ||
        exists i: nat :: i < |old(sending)| && old(sending)[i].text == text && sending == RemoveAt(old(sending), i)
    {
      var i := 0;
      while i < |sending| && sending[i].text != text
        invariant 0 <= i <= |sending|
      {
        i := i + 1;
      }
      if i < |sending| {
        sending := RemoveAt(sending, i);
      }
    }

    method IsEcho(m: Message, now: int) returns (echo: bool)
      requires Valid() && clock <= now
      modifies this
      ensures Valid() && clock == now && history == old(history)
      ensures echo <==> IsOwn(history, m, now)
      ensures (!m.isSelf || m.text.None?) && echo ==> RecentId(history, m.msgId, now)
    {
      Prune(now);
      if Find(sentIds, m.msgId).Some? {
        return true;
      }
      if !m.isSelf || m.text.None? {
        return false;
      }
      ListedIsRecent(sending, sent, history, now, m.text.value);
      echo := exists r :: r in sending + sent && r.text == m.text.value;
    }

    method Prune(now: int)
      requires Valid() && clock <= now
      modifies this
      ensures Valid() && clock == now && history == old(history)
      ensures IsCut(sending, now, 0) && IsCut(sent, now, 0)
      ensures forall id :: Find(sentIds, id).Some? <==> RecentId(history, id, now)
    {
      LaterKeepsAgreement(sentIds, sending, sent, history, clock, now);
      clock := now;
      while |sentIds| > 0 && now - sentIds[0].value > DAY_MS
        invariant IdsAgree(sentIds, history, now) && TextsAgree(sending, sent, history, now)
        invariant history == old(history) && clock == now
      {
        PruneHeadAgrees(sentIds, history, now);
        sentIds := sentIds[1..];
      }
      UnexpiredHeadIsExact(sentIds, history, now);
      ghost var i, j := 0, 0;
      var keepSending, keepSent;
      keepSending, i := DropExpired(sending, now);
      keepSent, j := DropExpired(sent, now);
      CutTextsAgree(sending, sent, history, now, i, j);
      sending, sent := keepSending, keepSent;
    }
  }

  lemma PruneHeadAgrees(ids: seq<Item<int>>, history: seq<Note>, now: int)
    requires IdsAgree(ids, history, now) && |ids| > 0 && now - ids[0].value > DAY_MS
    ensures IdsAgree(ids[1..], history, now)
  {
    FindIs(ids, 0);
    forall id ensures Find(ids[1..], id) == if id == ids[0].key then None else Find(ids, id) {
      DropIsExact(ids, 1, id);
    }
  }

  // Ids are listed by the time they were noted, so once the head is in its window all of them are.
  lemma UnexpiredHeadIsExact(ids: seq<Item<int>>, history: seq<Note>, now: int)
    requires IdsAgree(ids, history, now)
    requires |ids| > 0 ==> now - ids[0].value <= DAY_MS
    ensures forall id :: Find(ids, id).Some? <==> RecentId(history, id, now)
  {
    forall id | Find(ids, id).Some? ensures RecentId(history, id, now) {
      assert ids[0].value <= ids[IndexOf(ids, id)].value;
    }
  }

  method DropExpired(list: seq<Recent>, now: int) returns (kept: seq<Recent>, ghost cut: nat)
    ensures IsCut(list, now, cut) && kept == list[cut..]
    ensures (forall i, j :: 0 <= i < j < |list| ==> list[i].at <= list[j].at) ==>
              forall r :: r in kept <==> r in list && now - r.at <= TEXT_WINDOW_MS
  {
    var i := 0;
    while i < |list| && now - list[i].at > TEXT_WINDOW_MS
      invariant 0 <= i <= |list|
      invariant forall j :: 0 <= j < i ==> now - list[j].at > TEXT_WINDOW_MS
    {
      i := i + 1;
    }
    cut := i;
    kept := if i == 0 then list else list[i..];
  }

  // -------------------------------------------------------------------- what the filter is for

  // A self message with the text of a send is the bridge's own from the moment the send is noted until
  // a minute after it is noted as sent, whatever else happens in between.
  lemma OwnTextIsOwn(history: seq<Note>, more: seq<Note>, n: Note, m: Message, now: int)
    requires m.isSelf && m.text == Some(n.text) && now - n.at <= TEXT_WINDOW_MS
    ensures IsOwn(history + [n] + more, m, now)
  {
    assert n in history + [n] + more;
  }

  // The id of a sent message is the bridge's own for a day, even if the copy is not marked as self.
  lemma {:induction false} OwnIdIsOwn(history: seq<Note>, more: seq<Note>, n: Note, m: Message, now: int)
    requires n.Sent? && m.msgId == n.msgId && now - n.at <= DAY_MS
    requires forall k :: k in more ==> n.at <= k.at
    ensures IsOwn(history + [n] + more, m, now)
    ensures RecentId(history + [n] + more, m.msgId, now)
  {
    var all := history + [n] + more;
    if more == [] {
      assert all == history + [n];
      RecentIdOfAppended(history, n, m.msgId);
    } else {
      var last := more[|more| - 1];
      var init := more[..|more| - 1];
      assert all == (history + [n] + init) + [last];
      OwnIdIsOwn(history, init, n, m, now);
      RecentIdOfAppended(history + [n] + init, last, m.msgId);
    }
  }

  // A message typed by somebody else, or with nothing to compare, is forwarded whatever texts were noted; one
  // of the own account is, unless its text was noted inside the window. No id was noted within a day.
  lemma {:induction false} OthersAreForwarded(history: seq<Note>, m: Message, now: int)
    requires forall n :: n in history && n.Sent? && n.msgId == m.msgId ==> now - n.at > DAY_MS
    requires m.isSelf ==> forall n :: n in history && m.text == Some(n.text) ==> now - n.at > TEXT_WINDOW_MS
    ensures !IsOwn(history, m, now)
  {
    if history != [] {
      OthersAreForwarded(history[..|history| - 1], m, now);
    }
  }

  // In particular a message that is not of the own account is suppressed only for its id.
  lemma OnlyItsIdSuppressesAnother(history: seq<Note>, m: Message, now: int)
    requires !m.isSelf || m.text.None?
    ensures IsOwn(history, m, now) <==> RecentId(history, m.msgId, now)
    ensures RecentId(history, m.msgId, now) ==>
              exists n :: n in history && n.Sent? && n.msgId == m.msgId && now - n.at <= DAY_MS
  {
    if RecentId(history, m.msgId, now) {
      LastSentIsNoted(history, m.msgId);
    }
  }

  lemma {:induction false} LastSentIsNoted(history: seq<Note>, msgId: string)
    ensures LastSent(history, msgId).Some? ==>
              exists n :: n in history && n.Sent? && n.msgId == msgId && n.at == LastSent(history, msgId).value
  {
    if history != [] {
      var n := history[|history| - 1];
      assert n in history;
      LastSentIsNoted(history[..|history| - 1], msgId);
    }
  }
}
