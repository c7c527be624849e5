/** Keeping, of all items with the same tag, the last one at the place of the first. */
module Collapsing {
  import opened Options

  /** No earlier item has this one's tag. */
  predicate FirstOfItsTag<T>(tag: T -> Option<string>, items: seq<T>, k: nat)
    requires k < |items|
  {
    tag(items[k]).None? || forall j :: 0 <= j < k ==> tag(items[j]) != tag(items[k])
  }

  /** No later item has this one's tag. */
  predicate LastOfItsTag<T>(tag: T -> Option<string>, items: seq<T>, k: nat)
    requires k < |items|
  {
    tag(items[k]).None? || forall j :: k < j < |items| ==> tag(items[j]) != tag(items[k])
  }

  /** One of the items, and the last with its tag. */
  ghost predicate IsLast<T>(tag: T -> Option<string>, items: seq<T>, x: T) {
    exists k :: 0 <= k < |items| && x == items[k] && LastOfItsTag(tag, items, k)
  }

  predicate HasTag<T>(tag: T -> Option<string>, items: seq<T>, t: string) {
    exists j :: 0 <= j < |items| && tag(items[j]) == Some(t)
  }

  /** The places of the first items, in order. */
  function Firsts<T>(tag: T -> Option<string>, items: seq<T>): (r: seq<nat>)
    ensures forall i :: 0 <= i < |r| ==> r[i] < |items|
    ensures forall i, j :: 0 <= i < j < |r| ==> r[i] < r[j]
  {
    if items == [] then []
    else
      var last := |items| - 1;
      Firsts(tag, items[..last]) + if FirstOfItsTag(tag, items, last) then [last] else []
  }

  /** The place of the last item with the tag of the k-th; an untagged item stands for itself. */
  function LastOfTag<T>(tag: T -> Option<string>, items: seq<T>, k: nat): (r: nat)
    requires k < |items|
    ensures k <= r < |items| && tag(items[r]) == tag(items[k])
    ensures tag(items[k]).None? ==> r == k
    ensures LastOfItsTag(tag, items, r)
    decreases |items|
  {
    var last := |items| - 1;
    if k == last || tag(items[k]).None? then k
    else if tag(items[last]) == tag(items[k]) then last
    else LastOfTag(tag, items[..last], k)
  }

  function Collapsed<T>(tag: T -> Option<string>, items: seq<T>): seq<T> {
    var firsts := Firsts(tag, items);
    seq(|firsts|, i requires 0 <= i < |firsts| => items[LastOfTag(tag, items, firsts[i])])
  }

  // ---- one more item ----

  /** The tag stands at this place of the collapsed list. */
  ghost predicate StandsAt<T>(tag: T -> Option<string>, items: seq<T>, t: string, place: nat) {
    place < |Firsts(tag, items)| && tag(items[Firsts(tag, items)[place]]) == Some(t)
  }

  /** A list collapsed so far, with the place of every tag in it. */
  ghost predicate Indexed<T>(tag: T -> Option<string>, items: seq<T>, places: map<string, nat>, out: seq<T>) {
    && out == Collapsed(tag, items)
    && (forall t :: t in places <==> HasTag(tag, items, t))
    && (forall t :: t in places ==> StandsAt(tag, items, t, places[t]))
  }

  lemma {:induction false} FirstsAreFirst<T>(tag: T -> Option<string>, items: seq<T>)
    ensures forall i :: 0 <= i < |Firsts(tag, items)| ==> FirstOfItsTag(tag, items, Firsts(tag, items)[i])
    ensures forall k :: 0 <= k < |items| && FirstOfItsTag(tag, items, k) ==> k in Firsts(tag, items)
    decreases |items|
  {
    if items != [] {
      var front := items[..|items| - 1];
      FirstsAreFirst(tag, front);
      assert forall k :: 0 <= k < |front| ==> (FirstOfItsTag(tag, items, k) <==> FirstOfItsTag(tag, front, k));
    }
  }

  lemma OneFirstPerTag<T>(tag: T -> Option<string>, items: seq<T>, i: nat, j: nat)
    requires i < |Firsts(tag, items)| && j < |Firsts(tag, items)|
    requires tag(items[Firsts(tag, items)[i]]).Some?
    requires tag(items[Firsts(tag, items)[i]]) == tag(items[Firsts(tag, items)[j]])
    ensures i == j
  {
    FirstsAreFirst(tag, items);
  }

  /** An item whose tag is known replaces what stands at the tag's place. */
  lemma CollapseSeen<T>(tag: T -> Option<string>, items: seq<T>, places: map<string, nat>, out: seq<T>, x: T)
    requires Indexed(tag, items, places, out) && tag(x).Some? && tag(x).value in places
    ensures Indexed(tag, items + [x], places, out[places[tag(x).value] := x])
  {
    var (all, t) := (items + [x], tag(x).value);
    var firsts := Firsts(tag, items);
    var next := out[places[t] := x];
    forall i | 0 <= i < |firsts| ensures next[i] == Collapsed(tag, all)[i] {
      if tag(items[firsts[i]]) == Some(t) { OneFirstPerTag(tag, items, i, places[t]); }
    }
    TagsAppend(tag, items, x);
  }

  lemma NewPlace<T>(tag: T -> Option<string>, items: seq<T>, places: map<string, nat>, out: seq<T>, x: T, t: string)
    requires Indexed(tag, items, places, out) && (tag(x).Some? ==> tag(x).value !in places)
    ensures var places' := if tag(x).Some? then places[tag(x).value := |out|] else places;
      && (t in places' <==> HasTag(tag, items + [x], t))
      && (t in places' ==> StandsAt(tag, items + [x], t, places'[t]))
  {
    TagsAppend(tag, items, x);
  }

  /** Any other item is added at the end. */
  lemma CollapseNew<T>(tag: T -> Option<string>, items: seq<T>, places: map<string, nat>, out: seq<T>, x: T)
    requires Indexed(tag, items, places, out) && (tag(x).Some? ==> tag(x).value !in places)
    ensures Indexed(tag, items + [x], if tag(x).Some? then places[tag(x).value := |out|] else places, out + [x])
  {
    var places' := if tag(x).Some? then places[tag(x).value := |out|] else places;
    forall t ensures t in places' <==> HasTag(tag, items + [x], t) { NewPlace(tag, items, places, out, x, t); }
    forall t | t in places' ensures StandsAt(tag, items + [x], t, places'[t]) {
      NewPlace(tag, items, places, out, x, t);
    }
  }

  /** Takes one more item into a collapsed list and its places. */
  method Put<T>(tag: T -> Option<string>, ghost items: seq<T>, places: map<string, nat>, out: seq<T>, x: T)
    returns (places': map<string, nat>, out': seq<T>)
    requires Indexed(tag, items, places, out)
    ensures Indexed(tag, items + [x], places', out')
  {
    var t := tag(x);
    places' := places;
    if t.Some? && t.value in places {
      CollapseSeen(tag, items, places, out, x);
      out' := out[places[t.value] := x];
    } else {
      CollapseNew(tag, items, places, out, x);
      if t.Some? {
        places' := places[t.value := |out|];
      }
      out' := out + [x];
    }
  }

  lemma TagsAppend<T>(tag: T -> Option<string>, items: seq<T>, x: T)
    ensures forall t :: HasTag(tag, items + [x], t) <==> HasTag(tag, items, t) || tag(x) == Some(t)
  {
    forall t ensures HasTag(tag, items + [x], t) <==> HasTag(tag, items, t) || tag(x) == Some(t) {
      assert (items + [x])[|items|] == x;
      if HasTag(tag, items, t) {
        var j :| 0 <= j < |items| && tag(items[j]) == Some(t);
        assert (items + [x])[j] == items[j];
      }
    }
  }

  lemma NothingIndexed<T>(tag: T -> Option<string>)
    ensures Indexed(tag, [], map[], [])
  {
  }

  // ---- what collapsing keeps ----

  /** The items without a tag, in order. */
  function Untagged<T>(tag: T -> Option<string>, items: seq<T>): seq<T> {
    if items == [] then []
    else Untagged(tag, items[..|items| - 1]) + if tag(items[|items| - 1]).None? then [items[|items| - 1]] else []
  }

  /** Every item kept is one of the items: an untagged one, or the last of its tag. No tag is
      kept twice, and every tag is kept. */
  lemma CollapsedIsLastPerTag<T>(tag: T -> Option<string>, items: seq<T>)
    ensures var out := Collapsed(tag, items);
      && (forall i :: 0 <= i < |out| ==> IsLast(tag, items, out[i]))
      && (forall i, j :: 0 <= i < j < |out| && tag(out[i]).Some? ==> tag(out[i]) != tag(out[j]))
      && (forall t :: HasTag(tag, items, t) <==> HasTag(tag, out, t))
  {
    var (out, firsts) := (Collapsed(tag, items), Firsts(tag, items));
    forall i | 0 <= i < |out| ensures IsLast(tag, items, out[i]) && tag(out[i]) == tag(items[firsts[i]]) {
      var k := LastOfTag(tag, items, firsts[i]);
      assert out[i] == items[k] && LastOfItsTag(tag, items, k);
    }
    forall i, j | 0 <= i < j < |out| && tag(out[i]).Some? ensures tag(out[i]) != tag(out[j]) {
      if tag(out[i]) == tag(out[j]) { OneFirstPerTag(tag, items, i, j); }
    }
    forall t ensures HasTag(tag, items, t) <==> HasTag(tag, out, t) {
      if HasTag(tag, items, t) {
        var k := FirstWith(tag, items, t);
        FirstsAreFirst(tag, items);
        var i :| 0 <= i < |firsts| && firsts[i] == k;
        assert tag(out[i]) == Some(t);
      }
    }
  }

  lemma {:induction false} FirstWith<T>(tag: T -> Option<string>, items: seq<T>, t: string) returns (k: nat)
    requires HasTag(tag, items, t)
    ensures k < |items| && tag(items[k]) == Some(t) && FirstOfItsTag(tag, items, k)
    decreases |items|
  {
    var j :| 0 <= j < |items| && tag(items[j]) == Some(t);
    if HasTag(tag, items[..j], t) {
      k := FirstWith(tag, items[..j], t);
      assert items[..j][..k] == items[..k];
    } else {
      k := j;
      assert forall i :: 0 <= i < j ==> items[i] == items[..j][i];
    }
  }

  lemma UntaggedAppend<T>(tag: T -> Option<string>, items: seq<T>, x: T)
    ensures Untagged(tag, items + [x]) == Untagged(tag, items) + if tag(x).None? then [x] else []
  {
    assert (items + [x])[..|items|] == items;
  }

  lemma {:induction false} UntaggedUpdate<T>(tag: T -> Option<string>, items: seq<T>, i: nat, x: T)
    requires i < |items| && tag(items[i]).Some? && tag(x).Some?
    ensures Untagged(tag, items[i := x]) == Untagged(tag, items)
    decreases |items|
  {
    var last := |items| - 1;
    if i < last {
      UntaggedUpdate(tag, items[..last], i, x);
      assert items[i := x][..last] == items[..last][i := x];
    } else {
      assert items[i := x][..last] == items[..last];
    }
  }

  /** Untagged items are neither lost nor reordered. */
  lemma {:induction false} UntaggedAreKept<T>(tag: T -> Option<string>, items: seq<T>, places: map<string, nat>)
    requires Indexed(tag, items, places, Collapsed(tag, items))
    ensures Untagged(tag, Collapsed(tag, items)) == Untagged(tag, items)
    decreases |items|
  {
    if items != [] {
      var (front, x) := (items[..|items| - 1], items[|items| - 1]);
      assert items == front + [x];
      var before := PlacesOf(tag, front);
      UntaggedAreKept(tag, front, before);
      UntaggedAppend(tag, front, x);
      if tag(x).Some? && tag(x).value in before {
        CollapseSeen(tag, front, before, Collapsed(tag, front), x);
        var i := before[tag(x).value];
        assert tag(Collapsed(tag, front)[i]) == tag(front[Firsts(tag, front)[i]]);
        UntaggedUpdate(tag, Collapsed(tag, front), i, x);
      } else {
        CollapseNew(tag, front, before, Collapsed(tag, front), x);
        UntaggedAppend(tag, Collapsed(tag, front), x);
      }
    }
  }

  lemma {:induction false} PlacesOf<T>(tag: T -> Option<string>, items: seq<T>) returns (places: map<string, nat>)
    ensures Indexed(tag, items, places, Collapsed(tag, items))
    decreases |items|
  {
    places := map[];
    if items != [] {
      var (front, x) := (items[..|items| - 1], items[|items| - 1]);
      assert items == front + [x];
      places := PlacesOf(tag, front);
      if tag(x).Some? && tag(x).value in places {
        CollapseSeen(tag, front, places, Collapsed(tag, front), x);
      } else {
        CollapseNew(tag, front, places, Collapsed(tag, front), x);
        places := if tag(x).Some? then places[tag(x).value := |Collapsed(tag, front)|] else places;
      }
    }
  }

  /** Two items are kept as they are unless they share a tag. */
  lemma TwoAreKept<T>(tag: T -> Option<string>, a: T, b: T)
    requires tag(a).None? || tag(a) != tag(b)
    ensures Collapsed(tag, [a, b]) == [a, b]
  {
    assert [a, b][..1] == [a] && [a][..0] == [];
    assert Firsts(tag, [a]) == [0] && Firsts(tag, [a, b]) == [0, 1];
    assert LastOfTag(tag, [a, b], 0) == 0;
  }
}
