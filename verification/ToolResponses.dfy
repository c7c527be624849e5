/** Responses for tool calls that never got one (`ensure-tool-responses.ts`). */
module ToolResponses {
  import opened Options
  import opened ChatMessages

  /** A response made up for a call; its id is the hidden prefix and a fresh suffix. */
  function Missing(call: Call, suffix: string): Message
    requires call.id.Some?
  {
    Message(HIDDEN_PREFIX + suffix, Tool(call.id.value, Some("error")), "没有取得工具结果")
  }

  predicate IsResponse(m: Message, id: string) {
    m.body.Tool? && m.body.callId == id
  }

  /** Some message from this place on answers the call. */
  predicate AnsweredFrom(messages: seq<Message>, start: nat, id: string) {
    exists i :: start <= i < |messages| && IsResponse(messages[i], id)
  }

  predicate HasUnusable(m: Message) {
    m.body.Ai? && exists c :: 0 <= c < |m.body.calls| && !Usable(m.body.calls[c])
  }

  /** A message cannot be completed exactly if one of its calls has no id, or one that trimming leaves
      nothing of. */
  lemma UnusableIffNoId(m: Message)
    ensures HasUnusable(m) <==>
              m.body.Ai? && exists call ::
                call in m.body.calls && (call.id.None? || TrimEnd(TrimStart(call.id.value)) == "")
  {
    if m.body.Ai? {
      forall call: Call ensures !Usable(call) <==> call.id.None? || TrimEnd(TrimStart(call.id.value)) == "" {
        if call.id.Some? { BlankIffTrimmedAway(call.id.value); }
      }
      forall c | 0 <= c < |m.body.calls| ensures m.body.calls[c] in m.body.calls { }
    }
  }

  /** The c-th call of the k-th message has this id, and no response follows it. */
  predicate OpenAt(messages: seq<Message>, k: nat, c: nat, id: string) {
    k < |messages| && messages[k].body.Ai? && c < |messages[k].body.calls|
    && messages[k].body.calls[c].id == Some(id) && !AnsweredFrom(messages, k + 1, id)
  }

  /** Some call with this id is left without a response. */
  ghost predicate IsOpen(messages: seq<Message>, id: string) {
    exists k: nat, c: nat :: OpenAt(messages, k, c, id)
  }

  ghost predicate OpenIds(messages: seq<Message>, ids: set<string>) {
    forall id :: id in ids <==> IsOpen(messages, id)
  }

  /** The ids answered by these messages, which are all responses. */
  ghost predicate Responses(added: seq<Message>, ids: set<string>) {
    && (forall i :: 0 <= i < |added| ==>
          added[i].body.Tool? && HIDDEN_PREFIX <= added[i].id && added[i].body.status == Some("error"))
    && (forall id :: id in ids <==> exists i :: 0 <= i < |added| && added[i].body.callId == id)
    && (forall i, j :: 0 <= i < j < |added| ==> added[i].body.callId != added[j].body.callId)
  }

  /** The calls before the c-th call of the k-th message. */
  predicate Earlier(k': nat, c': nat, k: nat, c: nat) {
    k' < k || (k' == k && c' < c)
  }

  /** What has been added stands for exactly the open calls met so far. */
  ghost predicate Covers(messages: seq<Message>, k: nat, c: nat, ids: set<string>) {
    && (forall k', c', id :: OpenAt(messages, k', c', id) && Earlier(k', c', k, c) ==> id in ids)
    && (forall id :: id in ids ==> IsOpen(messages, id))
  }

  method HasResponse(messages: seq<Message>, start: nat, id: string) returns (found: bool)
    requires start <= |messages|
    ensures found <==> AnsweredFrom(messages, start, id)
  {
    var i := start;
    found := false;
    while i < |messages|
      invariant start <= i <= |messages|
      invariant found <==> exists j :: start <= j < i && IsResponse(messages[j], id)
    {
      if IsResponse(messages[i], id) { found := true; }
      i := i + 1;
    }
  }

  lemma CoverOne(messages: seq<Message>, k: nat, c: nat, ids: set<string>)
    requires k < |messages| && messages[k].body.Ai? && c < |messages[k].body.calls| && Usable(messages[k].body.calls[c])
    requires Covers(messages, k, c, ids)
    ensures var id := messages[k].body.calls[c].id.value;
      Covers(messages, k, c + 1, if AnsweredFrom(messages, k + 1, id) then ids else ids + {id})
  {
    var id := messages[k].body.calls[c].id.value;
    assert !AnsweredFrom(messages, k + 1, id) ==> OpenAt(messages, k, c, id);
    forall k', c', other | OpenAt(messages, k', c', other) && Earlier(k', c', k, c + 1)
      ensures other in ids || (other == id && !AnsweredFrom(messages, k + 1, id))
    {
    }
  }

  lemma AddOne(added: seq<Message>, ids: set<string>, m: Message)
    requires Responses(added, ids) && m.body.Tool? && HIDDEN_PREFIX <= m.id && m.body.status == Some("error")
    requires m.body.callId !in ids
    ensures Responses(added + [m], ids + {m.body.callId})
  {
    var all := added + [m];
    assert all[|added|] == m;
    forall id ensures id in ids + {m.body.callId} <==> exists i :: 0 <= i < |all| && all[i].body.callId == id {
      if id in ids {
        var i :| 0 <= i < |added| && added[i].body.callId == id;
        assert all[i].body.callId == id;
      }
    }
  }

  /** The responses the calls of one message still need. */
  method AddForMessage(messages: seq<Message>, k: nat, uuid: nat -> string, added: seq<Message>, ids: set<string>)
    returns (ok: bool, added': seq<Message>, ids': set<string>)
    requires k < |messages| && messages[k].body.Ai? && Responses(added, ids) && Covers(messages, k, 0, ids)
    ensures ok <==> !HasUnusable(messages[k])
    ensures ok ==> Responses(added', ids') && Covers(messages, k, |messages[k].body.calls|, ids')
  {
    added', ids' := added, ids;
    var calls := messages[k].body.calls;
    var c := 0;
    while c < |calls|
      invariant 0 <= c <= |calls| && forall i :: 0 <= i < c ==> Usable(calls[i])
      invariant Responses(added', ids') && Covers(messages, k, c, ids')
    {
      if !Usable(calls[c]) {
        return false, added', ids';
      }
      var id := calls[c].id.value;
      CoverOne(messages, k, c, ids');
      var hasResponse := HasResponse(messages, k + 1, id);
      if !hasResponse {
        assert id in ids' ==> ids' + {id} == ids';
        if id !in ids' {
          var response := Missing(calls[c], uuid(|added'|));
          AddOne(added', ids', response);
          added', ids' := added' + [response], ids' + {id};
        }
      }
      c := c + 1;
    }
    ok := true;
  }

  lemma CoverNext(messages: seq<Message>, k: nat, c: nat, ids: set<string>)
    requires k < |messages| && Covers(messages, k, c, ids)
    requires messages[k].body.Ai? ==> c == |messages[k].body.calls|
    ensures Covers(messages, k + 1, 0, ids)
  {
  }

  /** `ensureToolCallsHaveResponses`: it refuses exactly the threads with a call that has no
      usable id; otherwise it adds one response for every call id left open, and nothing else.
      `uuid` gives the random part of the ids of the responses. */
  method EnsureToolCallsHaveResponses(messages: seq<Message>, uuid: nat -> string) returns (r: Result<seq<Message>, ()>)
    ensures r.Err? <==> exists k :: 0 <= k < |messages| && HasUnusable(messages[k])
    ensures r.Ok? ==> exists ids :: Responses(r.value, ids) && OpenIds(messages, ids)
  {
    var added: seq<Message> := [];
    var ids: set<string> := {};
    var k := 0;
    while k < |messages|
      invariant 0 <= k <= |messages| && forall i :: 0 <= i < k ==> !HasUnusable(messages[i])
      invariant Responses(added, ids) && Covers(messages, k, 0, ids)
    {
      if messages[k].body.Ai? {
        var ok;
        ok, added, ids := AddForMessage(messages, k, uuid, added, ids);
        if !ok {
          return Err(());
        }
        CoverNext(messages, k, |messages[k].body.calls|, ids);
      } else {
        CoverNext(messages, k, 0, ids);
      }
      k := k + 1;
    }
    forall id ensures id in ids <==> IsOpen(messages, id) {
      if IsOpen(messages, id) {
        var k': nat, c': nat :| OpenAt(messages, k', c', id);
        assert Earlier(k', c', k, 0);
      }
    }
    r := Ok(added);
  }

  // ---- complete, minimal, and done once ----

  /** What the method promises about its result. */
  ghost predicate Completes(messages: seq<Message>, added: seq<Message>) {
    exists ids :: Responses(added, ids) && OpenIds(messages, ids)
  }

  lemma OpenLaterIsOpen(messages: seq<Message>, extra: seq<Message>, k: nat, c: nat, id: string)
    requires OpenAt(messages + extra, k, c, id) && k < |messages|
    ensures OpenAt(messages, k, c, id)
    ensures forall i :: 0 <= i < |extra| ==> !IsResponse(extra[i], id)
  {
    assert forall i :: 0 <= i < |messages| ==> (messages + extra)[i] == messages[i];
    forall i | 0 <= i < |extra| ensures !IsResponse(extra[i], id) {
      assert (messages + extra)[|messages| + i] == extra[i];
    }
  }

  lemma OpenIsOfTheThread(messages: seq<Message>, added: seq<Message>, k: nat, c: nat, id: string)
    requires OpenAt(messages + added, k, c, id) && forall i :: 0 <= i < |added| ==> added[i].body.Tool?
    ensures k < |messages|
  {
    assert forall j :: |messages| <= j < |messages + added| ==> (messages + added)[j] == added[j - |messages|];
  }

  lemma IdStaysOpenNowhere(messages: seq<Message>, added: seq<Message>, ids: set<string>, id: string)
    requires Responses(added, ids) && OpenIds(messages, ids)
    ensures !IsOpen(messages + added, id)
  {
    if IsOpen(messages + added, id) {
      var k: nat, c: nat :| OpenAt(messages + added, k, c, id);
      OpenIsOfTheThread(messages, added, k, c, id);
      OpenLaterIsOpen(messages, added, k, c, id);
      assert IsOpen(messages, id);
    }
  }

  /** With the responses added no call of the thread is open any more. */
  lemma NothingStaysOpen(messages: seq<Message>, added: seq<Message>)
    requires Completes(messages, added)
    ensures forall id :: !IsOpen(messages + added, id)
  {
    var ids :| Responses(added, ids) && OpenIds(messages, ids);
    forall id ensures !IsOpen(messages + added, id) { IdStaysOpenNowhere(messages, added, ids, id); }
  }

  /** A second application adds nothing. */
  lemma SecondTimeAddsNothing(messages: seq<Message>, added: seq<Message>, again: seq<Message>)
    requires Completes(messages, added) && Completes(messages + added, again)
    ensures again == []
  {
    NothingStaysOpen(messages, added);
    var ids :| Responses(again, ids) && OpenIds(messages + added, ids);
    assert ids == {};
    IdCount(again, ids);
  }

  /** Whatever else is appended so that no call stays open answers every open id. */
  lemma EveryOpenIdNeedsAnAnswer(messages: seq<Message>, extra: seq<Message>, id: string)
    requires IsOpen(messages, id) && forall other :: !IsOpen(messages + extra, other)
    ensures exists i :: 0 <= i < |extra| && IsResponse(extra[i], id)
  {
    var k: nat, c: nat :| OpenAt(messages, k, c, id);
    var all := messages + extra;
    assert forall i :: 0 <= i < |messages| ==> all[i] == messages[i];
    assert !IsOpen(all, id);
    assert !OpenAt(all, k, c, id) && all[k] == messages[k];
    var j :| k + 1 <= j < |all| && IsResponse(all[j], id);
    assert extra[j - |messages|] == all[j];
  }

  /** The call ids these messages answer. */
  function Answered(extra: seq<Message>): (r: set<string>)
    ensures |r| <= |extra|
  {
    if extra == [] then {}
    else
      var m := extra[|extra| - 1];
      Answered(extra[..|extra| - 1]) + if m.body.Tool? then {m.body.callId} else {}
  }

  lemma {:induction false} AnsweredTells(extra: seq<Message>, id: string)
    ensures id in Answered(extra) <==> exists i :: 0 <= i < |extra| && IsResponse(extra[i], id)
    decreases |extra|
  {
    if extra != [] {
      var front := extra[..|extra| - 1];
      AnsweredTells(front, id);
      assert forall i :: 0 <= i < |front| ==> front[i] == extra[i];
    }
  }

  lemma DistinctAnswers(added: seq<Message>, extra: seq<Message>, ids: set<string>)
    requires Responses(added, ids)
    requires forall id :: id in ids ==> exists i :: 0 <= i < |extra| && IsResponse(extra[i], id)
    ensures |added| <= |extra|
  {
    forall id | id in ids ensures id in Answered(extra) { AnsweredTells(extra, id); }
    SubsetSize(ids, Answered(extra));
    IdCount(added, ids);
  }

  lemma SubsetSize(a: set<string>, b: set<string>)
    requires a <= b
    ensures |a| <= |b|
  {
    assert b == a + (b - a);
  }

  lemma {:induction false} IdCount(added: seq<Message>, ids: set<string>)
    requires Responses(added, ids)
    ensures |ids| == |added|
    decreases |added|
  {
    if added == [] {
      assert ids == {};
    } else {
      var (front, id) := (added[..|added| - 1], added[|added| - 1].body.callId);
      assert added[|added| - 1].body.callId in ids;
      forall other ensures other in ids - {id} <==> exists i :: 0 <= i < |front| && front[i].body.callId == other {
        if other in ids - {id} {
          var i :| 0 <= i < |added| && added[i].body.callId == other;
          assert front[i].body.callId == other;
        }
        if i :| 0 <= i < |front| && front[i].body.callId == other {
          assert added[i].body.callId == other;
        }
      }
      IdCount(front, ids - {id});
    }
  }

  /** No shorter list of messages leaves no call open. */
  lemma NoShorterCompletion(messages: seq<Message>, added: seq<Message>, extra: seq<Message>)
    requires Completes(messages, added) && forall id :: !IsOpen(messages + extra, id)
    ensures |added| <= |extra|
  {
    var ids :| Responses(added, ids) && OpenIds(messages, ids);
    forall id | id in ids ensures exists i :: 0 <= i < |extra| && IsResponse(extra[i], id) {
      EveryOpenIdNeedsAnAnswer(messages, extra, id);
    }
    DistinctAnswers(added, extra, ids);
  }
}
