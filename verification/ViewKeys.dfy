/** The keys under which the views of a thread are rendered: when they are all different. */
module ViewKeys {
  import opened Options
  import opened Digits
  import opened ChatMessages
  import opened Collapsing
  import opened MessageViews

  /** Where the key of a view comes from: the call it shows, the id of its message, or else its place. */
  datatype Origin = ByCall | ById | ByPlace

  function OriginOf(v: View): Origin {
    if v.statistics.Some? then ByCall else if v.message.id != "" then ById else ByPlace
  }

  function Kind(m: Message): string {
    if m.body.Ai? then "ai" else if m.body.Tool? then "tool" else m.body.kind
  }

  /** The view of the k-th unique message, with its key. */
  ghost predicate Keyed(unique: seq<Message>, k: nat, v: View) {
    && k < |unique| && v.message == unique[k]
    && match OriginOf(v)
       case ByCall => v.message.body.Tool? && v.key == "statistics-" + v.message.body.callId
       case ById => v.key == v.message.id
       case ByPlace => v.key == Kind(v.message) + "-" + NatText(k)
  }

  lemma CollapsedPlace<T>(tag: T -> Option<string>, items: seq<T>, i: nat)
    requires i < |Collapsed(tag, items)|
    ensures var k := LastOfTag(tag, items, Firsts(tag, items)[i]); Collapsed(tag, items)[i] == items[k]
  {
  }

  lemma CollapsedPlacesDiffer<T>(tag: T -> Option<string>, items: seq<T>, i: nat, j: nat)
    requires i < j < |Collapsed(tag, items)|
    ensures LastOfTag(tag, items, Firsts(tag, items)[i]) != LastOfTag(tag, items, Firsts(tag, items)[j])
  {
    var (a, b) := (Firsts(tag, items)[i], Firsts(tag, items)[j]);
    if tag(items[a]).Some? && tag(items[a]) == tag(items[b]) { OneFirstPerTag(tag, items, i, j); }
  }

  lemma ViewIsKeyed(calls: map<string, Option<Site>>, unique: seq<Message>, k: nat)
    requires k < |unique|
    ensures Keyed(unique, k, AllViews(calls, unique)[k])
  {
    assert AllViews(calls, unique)[k] == ViewOf(calls, unique[k], k);
  }

  lemma TwoPlaces(unique: seq<Message>, calls: map<string, Option<Site>>, i: nat, j: nat) returns (k: nat, l: nat)
    requires i < j < |Collapsed(CallTag, AllViews(calls, unique))|
    ensures var views := Collapsed(CallTag, AllViews(calls, unique));
      k != l && Keyed(unique, k, views[i]) && Keyed(unique, l, views[j])
  {
    var all := AllViews(calls, unique);
    k := LastOfTag(CallTag, all, Firsts(CallTag, all)[i]);
    l := LastOfTag(CallTag, all, Firsts(CallTag, all)[j]);
    CollapsedPlace(CallTag, all, i);
    CollapsedPlace(CallTag, all, j);
    CollapsedPlacesDiffer(CallTag, all, i, j);
    ViewIsKeyed(calls, unique, k);
    ViewIsKeyed(calls, unique, l);
  }

  /** Two views stand for different messages. */
  lemma TwoViews(messages: seq<Message>, views: seq<View>, i: nat, j: nat) returns (k: nat, l: nat)
    requires AreViews(messages, views) && i < j < |views|
    ensures k != l && Keyed(Unique(messages), k, views[i]) && Keyed(Unique(messages), l, views[j])
  {
    var calls :| CallsIndexed(Sites(Unique(messages)), calls)
                 && views == Collapsed(CallTag, AllViews(calls, Unique(messages)));
    k, l := TwoPlaces(Unique(messages), calls, i, j);
  }

  predicate NoHyphen(s: string) {
    forall i :: 0 <= i < |s| ==> s[i] != '-'
  }

  lemma NoLaterHyphen(a: string, b: string, k: nat)
    requires NoHyphen(b) && |a| < k <= |a| + |b|
    ensures (a + "-" + b)[k] != '-'
  {
    assert (a + "-" + b)[k] == b[k - |a| - 1];
  }

  /** A text is cut at its last hyphen in one way. */
  lemma LastHyphen(a: string, b: string, c: string, d: string)
    requires NoHyphen(b) && NoHyphen(d) && a + "-" + b == c + "-" + d
    ensures a == c && b == d
  {
    var s := a + "-" + b;
    if |a| < |c| { NoLaterHyphen(a, b, |c|); }
    if |c| < |a| { NoLaterHyphen(c, d, |a|); }
    assert s[|a|] == '-' && (c + "-" + d)[|c|] == '-';
    assert a == s[..|a|] && c == s[..|c|] && b == s[|a| + 1..] && d == s[|c| + 1..];
  }

  lemma AfterPrefix(prefix: string, a: string, b: string)
    requires prefix + a == prefix + b
    ensures a == b
  {
    assert a == (prefix + a)[|prefix|..] && b == (prefix + b)[|prefix|..];
  }

  /** Views of one origin never share a key. */
  lemma SameKeyOtherOrigin(messages: seq<Message>, views: seq<View>, i: nat, j: nat)
    requires AreViews(messages, views) && i < j < |views| && views[i].key == views[j].key
    ensures OriginOf(views[i]) != OriginOf(views[j])
  {
    var k, l := TwoViews(messages, views, i, j);
    var (v, w) := (views[i], views[j]);
    if OriginOf(v) == OriginOf(w) {
      match OriginOf(v) {
        case ByCall =>
          OneViewPerCall(messages, views, i, j);
          AfterPrefix("statistics-", v.message.body.callId, w.message.body.callId);
        case ById =>
          UniqueMessagesAreLast(messages, if k < l then k else l);
        case ByPlace =>
          LastHyphen(Kind(v.message), NatText(k), Kind(w.message), NatText(l));
          ValueOfNatText(k);
          ValueOfNatText(l);
      }
    }
  }

  /** The text looks like the key of a place. */
  ghost predicate LooksLikePlace(s: string) {
    exists kind, n :: s == kind + "-" + NatText(n)
  }

  /** No id and no kind of message is like a key that is made up. */
  ghost predicate NoneReserved(messages: seq<Message>) {
    forall m :: m in messages ==>
      && !("statistics-" <= m.id) && !LooksLikePlace(m.id)
      && !("statistics-" <= Kind(m) + "-")
  }

  lemma UniqueAreMessages(messages: seq<Message>)
    ensures forall m :: m in Unique(messages) ==> m in messages
  {
    VisibleIffUnmarked(messages);
    CollapsedIsLastPerTag(IdTag, Visible(messages));
    forall m | m in Unique(messages) ensures m in messages {
      var i :| 0 <= i < |Unique(messages)| && Unique(messages)[i] == m;
      assert IsLast(IdTag, Visible(messages), Unique(messages)[i]);
    }
  }

  lemma DifferentOrigins(v: View, w: View, unique: seq<Message>, k: nat, l: nat)
    requires Keyed(unique, k, v) && Keyed(unique, l, w) && NoneReserved([v.message, w.message])
    requires OriginOf(v) != OriginOf(w)
    ensures v.key != w.key
  {
    assert v.message in [v.message, w.message] && w.message in [v.message, w.message];
    if OriginOf(v).ByPlace? { PlaceKeyDiffers(v, w, unique, k, l); }
    if OriginOf(w).ByPlace? { PlaceKeyDiffers(w, v, unique, l, k); }
  }

  lemma PlaceKeyDiffers(v: View, w: View, unique: seq<Message>, k: nat, l: nat)
    requires Keyed(unique, k, v) && Keyed(unique, l, w)
    requires NoneReserved([v.message, w.message]) && OriginOf(v).ByPlace? && !OriginOf(w).ByPlace?
    ensures v.key != w.key
  {
    assert v.message in [v.message, w.message] && w.message in [v.message, w.message];
    if OriginOf(w).ById? {
      assert LooksLikePlace(v.key);
    } else if v.key == w.key {
      PrefixReachesHyphen(Kind(v.message), NatText(k), w.message.body.callId);
    }
  }

  /** The made-up prefix ends within the kind and its hyphen. */
  lemma PrefixReachesHyphen(kind: string, number: string, callId: string)
    requires NoHyphen(number) && kind + "-" + number == "statistics-" + callId
    ensures "statistics-" <= kind + "-"
  {
    var s := kind + "-" + number;
    assert s[10] == '-';
    if |kind| < 10 { NoLaterHyphen(kind, number, 10); }
    assert s[..11] == "statistics-" && (kind + "-") == s[..|kind| + 1];
    assert s[..11] == (kind + "-")[..11];
  }

  /** If no id and no kind in the thread is like a key that is made up, all keys are different. */
  lemma KeysAreDistinct(messages: seq<Message>, views: seq<View>, i: nat, j: nat)
    requires AreViews(messages, views) && i < j < |views| && NoneReserved(messages)
    ensures views[i].key != views[j].key
  {
    var k, l := TwoViews(messages, views, i, j);
    UniqueAreMessages(messages);
    assert Unique(messages)[k] in Unique(messages) && Unique(messages)[l] in Unique(messages);
    if OriginOf(views[i]) == OriginOf(views[j]) {
      if views[i].key == views[j].key { SameKeyOtherOrigin(messages, views, i, j); }
    } else {
      DifferentOrigins(views[i], views[j], Unique(messages), k, l);
    }
  }

  // ---- when exactly keys clash ----

  /** Which key the k-th unique message would get by itself. */
  ghost predicate GetsKey(unique: seq<Message>, k: nat, origin: Origin, key: string) {
    k < |unique|
    && match origin
       case ByCall => AnswersStatistics(unique, k) && key == "statistics-" + unique[k].body.callId
       case ById => !AnswersStatistics(unique, k) && unique[k].id != "" && key == unique[k].id
       case ByPlace => unique[k].id == "" && key == Kind(unique[k]) + "-" + NatText(k)
  }

  /** The id of a message that is shown under its id is the key made up for another one, or two made-up
      keys of different origin are the same text. */
  ghost predicate Confusable(unique: seq<Message>) {
    exists k, l, a, b, key :: a != b && GetsKey(unique, k, a, key) && GetsKey(unique, l, b, key)
  }

  ghost predicate AllKeysDiffer(views: seq<View>) {
    forall i, j :: 0 <= i < j < |views| ==> views[i].key != views[j].key
  }

  lemma UntaggedStays(all: seq<View>, k: nat) returns (i: nat)
    requires k < |all| && CallTag(all[k]).None?
    ensures i < |Collapsed(CallTag, all)| && Collapsed(CallTag, all)[i] == all[k]
  {
    FirstsAreFirst(CallTag, all);
    var firsts := Firsts(CallTag, all);
    assert FirstOfItsTag(CallTag, all, k) && k in firsts;
    i :| 0 <= i < |firsts| && firsts[i] == k;
    CollapsedPlace(CallTag, all, i);
  }

  lemma TagStays(all: seq<View>, k: nat, t: string) returns (i: nat)
    requires k < |all| && CallTag(all[k]) == Some(t)
    ensures i < |Collapsed(CallTag, all)| && CallTag(Collapsed(CallTag, all)[i]) == Some(t)
  {
    CollapsedIsLastPerTag(CallTag, all);
    assert HasTag(CallTag, all, t) && HasTag(CallTag, Collapsed(CallTag, all), t);
    i :| 0 <= i < |Collapsed(CallTag, all)| && CallTag(Collapsed(CallTag, all)[i]) == Some(t);
  }

  /** Some view gets that key. */
  lemma KeyIsThere(unique: seq<Message>, calls: map<string, Option<Site>>, k: nat, origin: Origin, key: string)
    returns (i: nat)
    requires CallsIndexed(Sites(unique), calls) && GetsKey(unique, k, origin, key)
    ensures var views := Collapsed(CallTag, AllViews(calls, unique));
      i < |views| && OriginOf(views[i]) == origin && views[i].key == key
  {
    var all := AllViews(calls, unique);
    ViewTells(unique, calls, k);
    ViewIsKeyed(calls, unique, k);
    assert all[k] == ViewOf(calls, unique[k], k);
    if origin == ByCall {
      i := TagStays(all, k, unique[k].body.callId);
      CollapsedPlace(CallTag, all, i);
      ViewIsKeyed(calls, unique, LastOfTag(CallTag, all, Firsts(CallTag, all)[i]));
    } else {
      i := UntaggedStays(all, k);
    }
  }

  lemma ViewGetsKey(unique: seq<Message>, calls: map<string, Option<Site>>, i: nat) returns (k: nat)
    requires CallsIndexed(Sites(unique), calls) && i < |Collapsed(CallTag, AllViews(calls, unique))|
    ensures var v := Collapsed(CallTag, AllViews(calls, unique))[i]; GetsKey(unique, k, OriginOf(v), v.key)
  {
    var all := AllViews(calls, unique);
    k := LastOfTag(CallTag, all, Firsts(CallTag, all)[i]);
    CollapsedPlace(CallTag, all, i);
    ViewTells(unique, calls, k);
    ViewIsKeyed(calls, unique, k);
    assert all[k] == ViewOf(calls, unique[k], k);
  }

  /** The keys of the views are all different if and only if the thread is not confusable. */
  lemma KeysDifferIff(messages: seq<Message>, views: seq<View>)
    requires AreViews(messages, views)
    ensures AllKeysDiffer(views) <==> !Confusable(Unique(messages))
  {
    var unique := Unique(messages);
    var calls :| CallsIndexed(Sites(unique), calls) && views == Collapsed(CallTag, AllViews(calls, unique));
    if Confusable(unique) {
      var k, l, a, b, key :| a != b && GetsKey(unique, k, a, key) && GetsKey(unique, l, b, key);
      var i := KeyIsThere(unique, calls, k, a, key);
      var j := KeyIsThere(unique, calls, l, b, key);
      assert i != j && views[i].key == views[j].key;
    }
    if !AllKeysDiffer(views) {
      var i, j :| 0 <= i < j < |views| && views[i].key == views[j].key;
      SameKeyOtherOrigin(messages, views, i, j);
      var k := ViewGetsKey(unique, calls, i);
      var l := ViewGetsKey(unique, calls, j);
    }
  }

  /** They may clash: a message without an id gets the key that is the id of the other. */
  lemma KeysMayClash(first: string, second: string)
    ensures var thread := [Message("ai-1", Ai([]), first), Message("", Ai([]), second)];
      exists views: seq<View> :: AreViews(thread, views) && |views| == 2 && views[0].key == views[1].key
  {
    var (m, n) := (Message("ai-1", Ai([]), first), Message("", Ai([]), second));
    var views := [View("ai-1", m, None), View("ai-1", n, None)];
    TwoUnique(m, n);
    NoSites(m, n);
    ViewsOfTwo(m, n);
    TwoAreKept(CallTag, views[0], views[1]);
    assert CallsIndexed(Sites([m, n]), map[]);
    assert AreViews([m, n], views);
  }

  lemma NoSites(m: Message, n: Message)
    requires m.body == Ai([]) && n.body == Ai([])
    ensures Sites([m, n]) == []
  {
    assert [m, n][..1] == [m] && [m][..0] == [];
    assert Sites([m]) == [];
  }

  lemma ViewsOfTwo(m: Message, n: Message)
    requires m.id == "ai-1" && n.id == "" && m.body == Ai([]) && n.body == Ai([])
    ensures AllViews(map[], [m, n]) == [View("ai-1", m, None), View("ai-1", n, None)]
  {
    assert NatText(1) == "1" && "ai" + "-" + "1" == "ai-1";
    assert ViewOf(map[], m, 0) == View("ai-1", m, None) && ViewOf(map[], n, 1) == View("ai-1", n, None);
  }

  lemma TwoUnique(m: Message, n: Message)
    requires m.id == "ai-1" && n.id == ""
    ensures Unique([m, n]) == [m, n]
  {
    var thread := [m, n];
    assert thread[..1] == [m] && [m][..0] == [];
    assert !Hidden(m) by { assert HIDDEN_PREFIX[0] != m.id[0]; }
    assert Visible([m]) == [m] && Visible(thread) == thread;
    TwoAreKept(IdTag, m, n);
  }
}
