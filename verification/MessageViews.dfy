/** Folding the messages of a thread into what is shown (`statistics-messages.ts`). */
module MessageViews {
  import opened Options
  import opened Digits
  import opened ChatMessages
  import opened Collapsing

  const STATISTICS_TOOL := "analyze_file_statistics"

  /** What the statistics of a tool message are parsed from: its content, the arguments of its
      call and its status. The parser itself is any function of these. */
  datatype Statistics = Parsed(content: string, args: string, status: Option<string>)

  datatype View = View(key: string, message: Message, statistics: Option<Statistics>)

  // ---- the messages that are shown, each once ----

  predicate Hidden(m: Message) {
    HIDDEN_PREFIX <= m.id
  }

  function Visible(messages: seq<Message>): seq<Message> {
    if messages == [] then []
    else
      var last := messages[|messages| - 1];
      Visible(messages[..|messages| - 1]) + if Hidden(last) then [] else [last]
  }

  function IdTag(m: Message): Option<string> {
    if m.id == "" then None else Some(m.id)
  }

  /** For each message id the last message, at the place of the first. */
  function Unique(messages: seq<Message>): seq<Message> {
    Collapsed(IdTag, Visible(messages))
  }

  // ---- the calls of the thread ----

  /** A usable call and the message it stands in. */
  datatype Site = Site(call: Call, index: nat)

  function SitesIn(calls: seq<Call>, index: nat): seq<Site> {
    if calls == [] then []
    else
      var last := calls[|calls| - 1];
      SitesIn(calls[..|calls| - 1], index) + if Usable(last) then [Site(last, index)] else []
  }

  function CallsOf(m: Message): seq<Call> {
    if m.body.Ai? then m.body.calls else []
  }

  function Sites(messages: seq<Message>): seq<Site> {
    if messages == [] then []
    else Sites(messages[..|messages| - 1]) + SitesIn(CallsOf(messages[|messages| - 1]), |messages| - 1)
  }

  /** How often a call id occurs. */
  function Occurrences(sites: seq<Site>, id: string): nat {
    if sites == [] then 0
    else Occurrences(sites[..|sites| - 1], id) + if sites[|sites| - 1].call.id == Some(id) then 1 else 0
  }

  /** The only call with this id, if there is exactly one. */
  ghost predicate IsSole(sites: seq<Site>, id: string, site: Site) {
    site in sites && site.call.id == Some(id) && Occurrences(sites, id) == 1
  }

  ghost predicate CallsIndexed(sites: seq<Site>, calls: map<string, Option<Site>>) {
    && (forall id :: id in calls <==> Occurrences(sites, id) > 0)
    && (forall id :: id in calls ==> (calls[id].Some? <==> Occurrences(sites, id) == 1))
    && (forall id :: id in calls && calls[id].Some? ==> IsSole(sites, id, calls[id].value))
  }

  lemma IndexCall(sites: seq<Site>, calls: map<string, Option<Site>>, site: Site)
    requires CallsIndexed(sites, calls) && site.call.id.Some?
    ensures var id := site.call.id.value;
      CallsIndexed(sites + [site], calls[id := if id in calls then None else Some(site)])
  {
    var (all, id) := (sites + [site], site.call.id.value);
    assert all[..|sites|] == sites;
    forall other ensures Occurrences(all, other) == Occurrences(sites, other) + if other == id then 1 else 0 { }
    assert site in all && forall x :: x in sites ==> x in all;
  }

  // ---- the views ----

  /** The call a tool message answers: the only one with its id, in an earlier message. */
  function MatchedCall(calls: map<string, Option<Site>>, m: Message, index: nat): Option<Call> {
    if m.body.Tool? && m.body.callId in calls && calls[m.body.callId].Some? && calls[m.body.callId].value.index < index
    then Some(calls[m.body.callId].value.call)
    else None
  }

  function TypeName(m: Message): string {
    match m.body
    case Ai(_) => "ai"
    case Tool(_, _) => "tool"
    case Other(kind) => kind
  }

  function ViewOf(calls: map<string, Option<Site>>, m: Message, index: nat): View {
    var call := MatchedCall(calls, m, index);
    if call.Some? && call.value.name == STATISTICS_TOOL && !Blank(m.id)
    then View("statistics-" + m.body.callId, m, Some(Parsed(m.content, call.value.args, m.body.status)))
    else View(if m.id != "" then m.id else TypeName(m) + "-" + NatText(index), m, None)
  }

  function AllViews(calls: map<string, Option<Site>>, messages: seq<Message>): seq<View> {
    seq(|messages|, i requires 0 <= i < |messages| => ViewOf(calls, messages[i], i))
  }

  function CallTag(v: View): Option<string> {
    if v.statistics.Some? && v.message.body.Tool? then Some(v.message.body.callId) else None
  }

  /** The unique messages with their call index, and for each call id the last statistics view
      at the place of the first. */
  ghost predicate AreViews(messages: seq<Message>, views: seq<View>) {
    exists calls ::
      CallsIndexed(Sites(Unique(messages)), calls) && views == Collapsed(CallTag, AllViews(calls, Unique(messages)))
  }

  lemma VisibleNext(messages: seq<Message>, n: nat)
    requires n < |messages|
    ensures Visible(messages[..n + 1]) ==
              if Hidden(messages[n]) then Visible(messages[..n]) else Visible(messages[..n]) + [messages[n]]
  {
    assert messages[..n + 1][..n] == messages[..n];
  }

  method UniqueMessages(messages: seq<Message>) returns (unique: seq<Message>)
    ensures unique == Unique(messages)
  {
    unique := [];
    var identities: map<string, nat> := map[];
    NothingIndexed(IdTag);
    var n := 0;
    while n < |messages|
      invariant 0 <= n <= |messages| && Indexed(IdTag, Visible(messages[..n]), identities, unique)
    {
      VisibleNext(messages, n);
      if !(HIDDEN_PREFIX <= messages[n].id) {
        identities, unique := Put(IdTag, Visible(messages[..n]), identities, unique, messages[n]);
      }
      n := n + 1;
    }
    assert messages[..n] == messages;
  }

  lemma SitesInNext(calls: seq<Call>, k: nat, index: nat)
    requires k < |calls|
    ensures SitesIn(calls[..k + 1], index) ==
              if Usable(calls[k]) then SitesIn(calls[..k], index) + [Site(calls[k], index)]
              else SitesIn(calls[..k], index)
  {
    assert calls[..k + 1][..k] == calls[..k];
  }

  /** The calls of one message. */
  lemma IndexNext(before: seq<Site>, calls: seq<Call>, k: nat, index: nat, known: map<string, Option<Site>>)
    requires k < |calls| && CallsIndexed(before + SitesIn(calls[..k], index), known)
    ensures var sites := before + SitesIn(calls[..k + 1], index);
      if Usable(calls[k])
      then var id := calls[k].id.value;
        CallsIndexed(sites, known[id := if id in known then None else Some(Site(calls[k], index))])
      else CallsIndexed(sites, known)
  {
    SitesInNext(calls, k, index);
    if Usable(calls[k]) {
      var sites := before + SitesIn(calls[..k], index);
      IndexCall(sites, known, Site(calls[k], index));
      assert before + SitesIn(calls[..k + 1], index) == sites + [Site(calls[k], index)];
    }
  }

  method IndexCallsOf(ghost before: seq<Site>, calls: seq<Call>, index: nat, known: map<string, Option<Site>>)
    returns (known': map<string, Option<Site>>)
    requires CallsIndexed(before, known)
    ensures CallsIndexed(before + SitesIn(calls, index), known')
  {
    known' := known;
    var k := 0;
    assert before + [] == before;
    while k < |calls|
      invariant 0 <= k <= |calls| && CallsIndexed(before + SitesIn(calls[..k], index), known')
    {
      IndexNext(before, calls, k, index, known');
      if Usable(calls[k]) {
        var id := calls[k].id.value;
        known' := known'[id := if id in known' then None else Some(Site(calls[k], index))];
      }
      k := k + 1;
    }
    assert calls[..k] == calls;
  }

  lemma SitesNext(messages: seq<Message>, n: nat)
    requires n < |messages|
    ensures Sites(messages[..n + 1]) == Sites(messages[..n]) + SitesIn(CallsOf(messages[n]), n)
    ensures !messages[n].body.Ai? ==> Sites(messages[..n + 1]) == Sites(messages[..n])
  {
    assert messages[..n + 1][..n] == messages[..n];
  }

  method IndexCalls(unique: seq<Message>) returns (calls: map<string, Option<Site>>)
    ensures CallsIndexed(Sites(unique), calls)
  {
    calls := map[];
    var index := 0;
    while index < |unique|
      invariant 0 <= index <= |unique| && CallsIndexed(Sites(unique[..index]), calls)
    {
      SitesNext(unique, index);
      if unique[index].body.Ai? {
        calls := IndexCallsOf(Sites(unique[..index]), unique[index].body.calls, index, calls);
      }
      index := index + 1;
    }
    assert unique[..index] == unique;
  }

  lemma AllViewsNext(calls: map<string, Option<Site>>, messages: seq<Message>, n: nat)
    requires n < |messages|
    ensures AllViews(calls, messages[..n + 1]) == AllViews(calls, messages[..n]) + [ViewOf(calls, messages[n], n)]
  {
  }

  method FoldViews(calls: map<string, Option<Site>>, unique: seq<Message>) returns (views: seq<View>)
    ensures views == Collapsed(CallTag, AllViews(calls, unique))
  {
    var results: map<string, nat> := map[];
    views := [];
    NothingIndexed(CallTag);
    var index := 0;
    while index < |unique|
      invariant 0 <= index <= |unique| && Indexed(CallTag, AllViews(calls, unique[..index]), results, views)
    {
      AllViewsNext(calls, unique, index);
      results, views :=
        Put(CallTag, AllViews(calls, unique[..index]), results, views, ViewOf(calls, unique[index], index));
      index := index + 1;
    }
    assert unique[..index] == unique;
  }

  /** `buildMessageViews`. */
  method BuildMessageViews(messages: seq<Message>) returns (views: seq<View>)
    ensures AreViews(messages, views)
  {
    var unique := UniqueMessages(messages);
    var calls := IndexCalls(unique);
    views := FoldViews(calls, unique);
  }

  // ---- what the views promise ----

  /** The id begins with the mark of messages that are not to be rendered. */
  ghost predicate Marked(m: Message) {
    exists rest :: m.id == "do-not-render-" + rest
  }

  lemma HiddenIffMarked(m: Message)
    ensures Hidden(m) <==> Marked(m)
  {
    if Hidden(m) { assert m.id == HIDDEN_PREFIX + m.id[|HIDDEN_PREFIX|..]; }
  }

  /** Visible are exactly the messages without the mark. */
  lemma {:induction false} VisibleIffUnmarked(messages: seq<Message>)
    ensures forall m :: m in Visible(messages) <==> m in messages && !Marked(m)
    decreases |messages|
  {
    if messages != [] {
      var (front, last) := (messages[..|messages| - 1], messages[|messages| - 1]);
      VisibleIffUnmarked(front);
      HiddenIffMarked(last);
      assert messages == front + [last];
    }
  }

  /** This view shows the statistics of a call: it stands for a named tool message that answers
      the only call with its id, that call asked for statistics and stands in an earlier message,
      and what is shown is parsed from this message and that call. */
  ghost predicate ShowsStatistics(unique: seq<Message>, k: nat, view: View)
    requires k < |unique|
  {
    view.message == unique[k] && unique[k].body.Tool? && !Blank(unique[k].id)
    && exists site :: IsSole(Sites(unique), unique[k].body.callId, site) && site.index < k
                      && site.call.name == STATISTICS_TOOL
                      && view.statistics == Some(Parsed(unique[k].content, site.call.args, unique[k].body.status))
  }

  ghost predicate AnswersStatistics(unique: seq<Message>, k: nat)
    requires k < |unique|
  {
    unique[k].body.Tool? && !Blank(unique[k].id)
    && exists site ::
         IsSole(Sites(unique), unique[k].body.callId, site) && site.index < k && site.call.name == STATISTICS_TOOL
  }

  lemma {:induction false} SoleIsUnique(sites: seq<Site>, id: string, a: Site, b: Site)
    requires IsSole(sites, id, a) && IsSole(sites, id, b)
    ensures a == b
    decreases |sites|
  {
    var (front, last) := (sites[..|sites| - 1], sites[|sites| - 1]);
    assert sites == front + [last];
    if last.call.id == Some(id) {
      NotThere(front, id);
    } else {
      SoleIsUnique(front, id, a, b);
    }
  }

  lemma {:induction false} NotThere(sites: seq<Site>, id: string)
    requires Occurrences(sites, id) == 0
    ensures forall site :: site in sites ==> site.call.id != Some(id)
    decreases |sites|
  {
    if sites != [] {
      NotThere(sites[..|sites| - 1], id);
      assert sites == sites[..|sites| - 1] + [sites[|sites| - 1]];
    }
  }

  lemma {:induction false} SoleIsIndexed(sites: seq<Site>, calls: map<string, Option<Site>>, id: string, site: Site)
    requires CallsIndexed(sites, calls) && IsSole(sites, id, site)
    ensures id in calls && calls[id] == Some(site)
  {
    SoleIsUnique(sites, id, site, calls[id].value);
  }

  lemma {:induction false} AnswersAreShown(unique: seq<Message>, calls: map<string, Option<Site>>, k: nat)
    requires CallsIndexed(Sites(unique), calls) && k < |unique| && AnswersStatistics(unique, k)
    ensures ViewOf(calls, unique[k], k).statistics.Some?
  {
    var id := unique[k].body.callId;
    var site :| IsSole(Sites(unique), id, site) && site.index < k && site.call.name == STATISTICS_TOOL;
    SoleIsIndexed(Sites(unique), calls, id, site);
  }

  lemma {:induction false} ShownAreAnswers(unique: seq<Message>, calls: map<string, Option<Site>>, k: nat)
    requires CallsIndexed(Sites(unique), calls) && k < |unique| && ViewOf(calls, unique[k], k).statistics.Some?
    ensures AnswersStatistics(unique, k) && ShowsStatistics(unique, k, ViewOf(calls, unique[k], k))
  {
    var site := calls[unique[k].body.callId].value;
    assert IsSole(Sites(unique), unique[k].body.callId, site);
  }

  lemma {:induction false} ViewTells(unique: seq<Message>, calls: map<string, Option<Site>>, k: nat)
    requires CallsIndexed(Sites(unique), calls) && k < |unique|
    ensures var view := ViewOf(calls, unique[k], k);
      && view.message == unique[k]
      && (view.statistics.Some? <==> AnswersStatistics(unique, k))
      && (view.statistics.Some? ==> ShowsStatistics(unique, k, view))
  {
    if AnswersStatistics(unique, k) {
      AnswersAreShown(unique, calls, k);
      ShownAreAnswers(unique, calls, k);
    } else if ViewOf(calls, unique[k], k).statistics.Some? {
      ShownAreAnswers(unique, calls, k);
    }
  }

  /** Every view is the view of one of the unique messages. It shows statistics exactly if the
      message answers, later in the thread, the only call with its id, and that call asked for
      statistics; and then no later message does so for the same call. */
  lemma {:induction false} StatisticsAreSole(messages: seq<Message>, views: seq<View>, i: nat)
    requires AreViews(messages, views) && i < |views|
    ensures var unique := Unique(messages);
      exists k :: 0 <= k < |unique| && views[i].message == unique[k]
        && (views[i].statistics.Some? <==> AnswersStatistics(unique, k))
        && (views[i].statistics.Some? ==> ShowsStatistics(unique, k, views[i]) && NoLaterAnswer(unique, k))
  {
    var unique := Unique(messages);
    var calls :| CallsIndexed(Sites(unique), calls) && views == Collapsed(CallTag, AllViews(calls, unique));
    var all := AllViews(calls, unique);
    CollapsedIsLastPerTag(CallTag, all);
    assert IsLast(CallTag, all, views[i]);
    var k :| 0 <= k < |all| && views[i] == all[k] && LastOfItsTag(CallTag, all, k);
    forall j | k <= j < |unique|
      ensures CallTag(all[j]) == if AnswersStatistics(unique, j) then Some(unique[j].body.callId) else None
    {
      ViewTells(unique, calls, j);
    }
    ViewTells(unique, calls, k);
  }

  ghost predicate NoLaterAnswer(unique: seq<Message>, k: nat)
    requires k < |unique| && unique[k].body.Tool?
  {
    forall j :: k < j < |unique| && AnswersStatistics(unique, j) ==> unique[j].body.callId != unique[k].body.callId
  }

  /** No call is shown twice. */
  lemma {:induction false} OneViewPerCall(messages: seq<Message>, views: seq<View>, i: nat, j: nat)
    requires AreViews(messages, views) && i < j < |views| && views[i].statistics.Some? && views[j].statistics.Some?
    ensures views[i].message.body.Tool? && views[j].message.body.Tool?
    ensures views[i].message.body.callId != views[j].message.body.callId
  {
    StatisticsAreSole(messages, views, i);
    StatisticsAreSole(messages, views, j);
    var unique := Unique(messages);
    var calls :| CallsIndexed(Sites(unique), calls) && views == Collapsed(CallTag, AllViews(calls, unique));
    CollapsedIsLastPerTag(CallTag, AllViews(calls, unique));
    assert CallTag(views[i]) != CallTag(views[j]);
  }

  /** The messages of these views, in order. */
  function Shown(views: seq<View>): seq<Message> {
    if views == [] then [] else Shown(views[..|views| - 1]) + [views[|views| - 1].message]
  }

  /** The unique messages that answer no statistics call, in order. */
  ghost function Plain(unique: seq<Message>, n: nat): seq<Message>
    requires n <= |unique|
  {
    if n == 0 then []
    else Plain(unique, n - 1) + if AnswersStatistics(unique, n - 1) then [] else [unique[n - 1]]
  }

  /** These views have a tag exactly where a message answers a statistics call. */
  ghost predicate TagsTell(unique: seq<Message>, views: seq<View>) {
    |views| == |unique| && forall k :: 0 <= k < |views| ==>
      views[k].message == unique[k] && (CallTag(views[k]).None? <==> !AnswersStatistics(unique, k))
  }

  lemma TagsOfViews(unique: seq<Message>, calls: map<string, Option<Site>>)
    requires CallsIndexed(Sites(unique), calls)
    ensures TagsTell(unique, AllViews(calls, unique))
  {
    var views := AllViews(calls, unique);
    forall k | 0 <= k < |views|
      ensures views[k].message == unique[k] && (CallTag(views[k]).None? <==> !AnswersStatistics(unique, k))
    {
      ViewTells(unique, calls, k);
    }
  }

  /** The messages of the first `n` views without a tag. */
  function WithoutTag(views: seq<View>, n: nat): seq<Message>
    requires n <= |views|
  {
    if n == 0 then []
    else WithoutTag(views, n - 1) + if CallTag(views[n - 1]).None? then [views[n - 1].message] else []
  }

  lemma {:induction false} ShownWithoutTag(views: seq<View>, n: nat)
    requires n <= |views|
    ensures Shown(Untagged(CallTag, views[..n])) == WithoutTag(views, n)
    decreases n
  {
    if n > 0 {
      ShownWithoutTag(views, n - 1);
      assert views[..n] == views[..n - 1] + [views[n - 1]];
      ShownNext(views[..n - 1], views[n - 1]);
    }
  }

  lemma {:induction false} PlainViews(unique: seq<Message>, views: seq<View>, n: nat)
    requires TagsTell(unique, views) && n <= |unique|
    ensures WithoutTag(views, n) == Plain(unique, n)
    decreases n
  {
    if n > 0 { PlainViews(unique, views, n - 1); }
  }

  lemma ShownNext(before: seq<View>, view: View)
    ensures Shown(Untagged(CallTag, before + [view]))
         == Shown(Untagged(CallTag, before)) + if CallTag(view).None? then [view.message] else []
  {
    UntaggedAppend(CallTag, before, view);
    var plain := Untagged(CallTag, before);
    if CallTag(view).None? {
      assert (plain + [view])[..|plain|] == plain;
      assert Shown(plain + [view]) == Shown(plain) + [view.message];
    } else {
      assert plain + [] == plain && Shown(plain) + [] == Shown(plain);
    }
  }

  /** Apart from statistics, no message is lost, repeated or moved. */
  lemma {:induction false} OtherMessagesAreKept(messages: seq<Message>, views: seq<View>)
    requires AreViews(messages, views)
    ensures Shown(Untagged(CallTag, views)) == Plain(Unique(messages), |Unique(messages)|)
  {
    var unique := Unique(messages);
    var calls :| CallsIndexed(Sites(unique), calls) && views == Collapsed(CallTag, AllViews(calls, unique));
    var places := PlacesOf(CallTag, AllViews(calls, unique));
    UntaggedAreKept(CallTag, AllViews(calls, unique), places);
    TagsOfViews(unique, calls);
    ShownWithoutTag(AllViews(calls, unique), |unique|);
    PlainViews(unique, AllViews(calls, unique), |unique|);
    assert AllViews(calls, unique)[..|unique|] == AllViews(calls, unique);
  }

  /** Visible messages without an id are neither lost nor reordered. */
  lemma {:induction false} AnonymousMessagesAreKept(messages: seq<Message>)
    ensures Untagged(IdTag, Unique(messages)) == Untagged(IdTag, Visible(messages))
  {
    var places := PlacesOf(IdTag, Visible(messages));
    UntaggedAreKept(IdTag, Visible(messages), places);
  }

  /** Of the visible messages with an id the last one remains, and no other. */
  lemma {:induction false} UniqueMessagesAreLast(messages: seq<Message>, i: nat)
    requires i < |Unique(messages)|
    ensures var (visible, unique) := (Visible(messages), Unique(messages));
      && IsLast(IdTag, visible, unique[i])
      && (forall j :: i < j < |unique| && unique[i].id != "" ==> unique[j].id != unique[i].id)
      && (forall t :: HasTag(IdTag, visible, t) ==> HasTag(IdTag, unique, t))
  {
    var (visible, unique) := (Visible(messages), Unique(messages));
    CollapsedIsLastPerTag(IdTag, visible);
    assert IsLast(IdTag, visible, unique[i]);
    forall j | i < j < |unique| && unique[i].id != "" ensures unique[j].id != unique[i].id {
      assert IdTag(unique[i]) != IdTag(unique[j]);
    }
  }
}
