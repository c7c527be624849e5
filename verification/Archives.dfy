/** The check of a recovery archive before it is extracted (`data_recovery.py`).

    A tar file is a sequence of members. A member's name is split at its slashes into the
    parts of a path, as `PurePosixPath` does; the root of the archive has no parts. */
module Archives {
  import opened Options

  const MAX_MEMBERS := 100_000
  const MAX_BYTES := 1024 * 1024 * 1024
  const MAX_NAME := 4096

  type Entry = seq<string>

  datatype Kind = RegularFile | Directory | Other

  /** `special` tells whether the raw name holds a backslash or a colon. */
  datatype Member = Member(
    entry: Entry, nameLength: nat, absolute: bool, special: bool, kind: Kind, sparse: bool, size: int, data: string)

  /** The entries above this one, the root included. */
  function Parents(e: Entry): set<Entry> {
    set i | 0 <= i < |e| :: e[..i]
  }

  /** What is asked of a member by itself. */
  predicate WellFormed(m: Member) {
    && m.nameLength <= MAX_NAME && !m.absolute && ".." !in m.entry && !m.special
    && !m.kind.Other? && !m.sparse
    && (if m.kind.Directory? then m.size == 0 else m.entry != [] && m.size >= 0)
  }

  /** Two members that can stand in one archive: different entries, and neither is a file
      above the other. */
  predicate Compatible(m: Member, n: Member) {
    && m.entry != n.entry
    && !(m.kind.RegularFile? && m.entry in Parents(n.entry))
    && !(n.kind.RegularFile? && n.entry in Parents(m.entry))
  }

  predicate CompatibleWithAll(m: Member, members: seq<Member>) {
    forall n :: n in members ==> Compatible(m, n)
  }

  predicate PairwiseCompatible(members: seq<Member>) {
    members == [] || (CompatibleWithAll(members[0], members[1..]) && PairwiseCompatible(members[1..]))
  }

  function Expanded(members: seq<Member>): int {
    if members == [] then 0
    else (if members[0].kind.Directory? then 0 else members[0].size) + Expanded(members[1..])
  }

  predicate AllWellFormed(members: seq<Member>) {
    forall m :: m in members ==> WellFormed(m)
  }

  /** The archives that may be extracted. */
  predicate Admissible(members: seq<Member>) {
    && 0 < |members| <= MAX_MEMBERS && AllWellFormed(members) && PairwiseCompatible(members)
    && Expanded(members) <= MAX_BYTES
  }

  // ---- inserting a member anywhere ----

  lemma {:induction false} PairwiseInsert(a: seq<Member>, m: Member, b: seq<Member>)
    ensures PairwiseCompatible(a + [m] + b) <==> PairwiseCompatible(a + b) && CompatibleWithAll(m, a + b)
  {
    if a == [] {
      assert [] + [m] + b == [m] + b && [] + b == b && ([m] + b)[1..] == b;
    } else {
      PairwiseInsert(a[1..], m, b);
      assert (a + [m] + b)[1..] == a[1..] + [m] + b && (a + b)[1..] == a[1..] + b;
      HeadOfInsert(a, m, b);
      assert (a + [m] + b)[0] == a[0] && (a + b)[0] == a[0];
    }
  }

  lemma {:induction false} ExpandedInsert(a: seq<Member>, m: Member, b: seq<Member>)
    ensures Expanded(a + [m] + b) == Expanded([m]) + Expanded(a + b)
  {
    if a == [] {
      assert [] + [m] + b == [m] + b && [] + b == b && ([m] + b)[1..] == b;
    } else {
      ExpandedInsert(a[1..], m, b);
      assert (a + [m] + b)[1..] == a[1..] + [m] + b && (a + b)[1..] == a[1..] + b;
    }
  }

  lemma HeadOfInsert(a: seq<Member>, m: Member, b: seq<Member>)
    requires a != []
    ensures CompatibleWithAll(a[0], a[1..] + [m] + b) <==> Compatible(m, a[0]) && CompatibleWithAll(a[0], a[1..] + b)
    ensures CompatibleWithAll(m, a + b) <==> Compatible(m, a[0]) && CompatibleWithAll(m, a[1..] + b)
  {
    assert Compatible(m, a[0]) <==> Compatible(a[0], m);
    assert forall n :: n in a[1..] + [m] + b <==> n == m || n in a[1..] + b;
    assert forall n :: n in a + b <==> n == a[0] || n in a[1..] + b by { assert a == [a[0]] + a[1..]; }
  }

  lemma AppendMember(members: seq<Member>, m: Member)
    ensures PairwiseCompatible(members + [m]) <==> PairwiseCompatible(members) && CompatibleWithAll(m, members)
    ensures Expanded(members + [m]) == Expanded([m]) + Expanded(members)
  {
    PairwiseInsert(members, m, []);
    ExpandedInsert(members, m, []);
    assert members + [m] + [] == members + [m] && members + [] == members;
  }

  /** A reordering of a list holds its first element somewhere, and what is left there
      reorders the rest. */
  lemma SplitReordering(members: seq<Member>, other: seq<Member>) returns (k: nat)
    requires members != [] && multiset(members) == multiset(other)
    ensures k < |other| && other[k] == members[0] && other == other[..k] + [other[k]] + other[k + 1..]
    ensures multiset(members[1..]) == multiset(other[..k] + other[k + 1..])
  {
    var (first, rest) := (members[0], members[1..]);
    assert members == [first] + rest;
    assert multiset(members) == multiset{first} + multiset(rest);
    assert first in multiset(other);
    k :| 0 <= k < |other| && other[k] == first;
    var (a, b) := (other[..k], other[k + 1..]);
    assert other == a + [first] + b;
    assert multiset(other) == multiset(a) + multiset{first} + multiset(b);
    assert multiset(a + b) == multiset(other) - multiset{first};
    assert multiset(rest) == multiset(members) - multiset{first};
  }

  lemma {:induction false} ReorderingKeeps(members: seq<Member>, other: seq<Member>)
    requires multiset(members) == multiset(other)
    ensures PairwiseCompatible(members) <==> PairwiseCompatible(other)
    ensures Expanded(members) == Expanded(other)
    decreases |members|
  {
    if members != [] {
      var k := SplitReordering(members, other);
      var (a, b) := (other[..k], other[k + 1..]);
      ReorderingKeeps(members[1..], a + b);
      PairwiseInsert(a, members[0], b);
      PairwiseInsert([], members[0], members[1..]);
      ExpandedInsert(a, members[0], b);
      ExpandedInsert([], members[0], members[1..]);
      assert [] + [members[0]] + members[1..] == members && [] + members[1..] == members[1..];
      SameMembers(members[1..], a + b);
    } else {
      assert |multiset(other)| == 0;
    }
  }

  lemma SameMembers(members: seq<Member>, other: seq<Member>)
    requires multiset(members) == multiset(other)
    ensures forall m :: m in members <==> m in other
    ensures |members| == |other|
  {
    assert forall m :: m in members <==> m in multiset(members);
    assert forall m :: m in other <==> m in multiset(other);
    assert |multiset(members)| == |members| && |multiset(other)| == |other|;
  }

  /** Whether an archive is admitted does not depend on the order of its members. */
  lemma AdmissionIgnoresOrder(members: seq<Member>, other: seq<Member>)
    requires multiset(members) == multiset(other)
    ensures Admissible(members) <==> Admissible(other)
  {
    ReorderingKeeps(members, other);
    SameMembers(members, other);
  }

  // ---- the online check ----

  function Entries(members: seq<Member>): set<Entry> {
    set m | m in members :: m.entry
  }

  function Files(members: seq<Member>): set<Entry> {
    set m | m in members && m.kind.RegularFile? :: m.entry
  }

  function Directories(members: seq<Member>): set<Entry> {
    (set m | m in members && m.kind.Directory? :: m.entry) + set m, p | m in members && p in Parents(m.entry) :: p
  }

  lemma SetsGrow(members: seq<Member>, m: Member)
    requires WellFormed(m)
    ensures Entries(members + [m]) == Entries(members) + {m.entry}
    ensures Files(members + [m]) == Files(members) + if m.kind.Directory? then {} else {m.entry}
    ensures Directories(members + [m])
         == Directories(members) + (if m.kind.Directory? then {m.entry} else {}) + Parents(m.entry)
  {
    assert forall n :: n in members + [m] <==> n in members || n == m;
  }

  lemma {:induction false} ExpandedIsNat(members: seq<Member>)
    requires AllWellFormed(members)
    ensures Expanded(members) >= 0
  {
    if members != [] {
      assert WellFormed(members[0]);
      ExpandedIsNat(members[1..]);
    }
  }

  lemma {:induction false} PrefixIsAdmissible(members: seq<Member>, k: nat)
    requires 0 < k <= |members| && Admissible(members)
    ensures Admissible(members[..k])
    decreases |members| - k
  {
    if k < |members| {
      PrefixIsAdmissible(members, k + 1);
      assert members[..k + 1] == members[..k] + [members[k]];
      AppendMember(members[..k], members[k]);
      ExpandedIsNat([members[k]]);
    } else {
      assert members[..k] == members;
    }
  }

  /** One turn of the loop, from the sets as they are before it. */
  predicate Passes(index: nat, m: Member, declared: set<Entry>, directories: set<Entry>, files: set<Entry>,
                   expanded: int)
  {
    && index <= MAX_MEMBERS && WellFormed(m)
    && m.entry !in declared && files !! Parents(m.entry)
    && (m.kind.RegularFile? ==> m.entry !in directories && expanded + m.size <= MAX_BYTES)
  }

  /** What the sets tell about a new member. */
  lemma FitsIffNotMet(members: seq<Member>, m: Member)
    ensures CompatibleWithAll(m, members) <==>
      && m.entry !in Entries(members) && Files(members) !! Parents(m.entry)
      && (m.kind.RegularFile? ==> m.entry !in Directories(members))
  {
  }

  lemma PassesIffAdmissible(members: seq<Member>, m: Member)
    requires members == [] || Admissible(members)
    ensures Passes(|members| + 1, m, Entries(members), Directories(members), Files(members), Expanded(members))
            <==> Admissible(members + [m])
  {
    AppendMember(members, m);
    FitsIffNotMet(members, m);
    assert forall n :: n in members + [m] <==> n in members || n == m;
    assert WellFormed(m) ==> Expanded([m]) == (if m.kind.Directory? then 0 else m.size);
  }

  /** The variables of the loop after these members. */
  ghost predicate Met(members: seq<Member>, declared: set<Entry>, directories: set<Entry>, files: set<Entry>,
                      expanded: int)
  {
    && (members == [] || Admissible(members))
    && declared == Entries(members) && directories == Directories(members) && files == Files(members)
    && expanded == Expanded(members)
  }

  lemma MetOneMore(members: seq<Member>, m: Member, declared: set<Entry>, directories: set<Entry>, files: set<Entry>,
                   expanded: int)
    requires Met(members, declared, directories, files, expanded)
    ensures Passes(|members| + 1, m, declared, directories, files, expanded) <==> Admissible(members + [m])
    ensures Admissible(members + [m]) ==>
              if m.kind.Directory?
              then Met(members + [m], declared + {m.entry}, directories + {m.entry} + Parents(m.entry), files, expanded)
              else Met(members + [m], declared + {m.entry}, directories + Parents(m.entry), files + {m.entry},
                       expanded + m.size)
  {
    PassesIffAdmissible(members, m);
    if Admissible(members + [m]) {
      AppendMember(members, m);
      SetsGrow(members, m);
    }
  }

  lemma RefusalIsFinal(members: seq<Member>, k: nat)
    requires k < |members| && !Admissible(members[..k] + [members[k]])
    ensures !Admissible(members)
  {
    assert members[..k + 1] == members[..k] + [members[k]];
    if Admissible(members) { PrefixIsAdmissible(members, k + 1); }
  }

  lemma AllMet(members: seq<Member>, declared: set<Entry>, directories: set<Entry>, files: set<Entry>, expanded: int)
    requires Met(members, declared, directories, files, expanded)
    ensures declared != {} <==> Admissible(members)
    ensures expanded == Expanded(members)
  {
    assert members != [] ==> members[0].entry in declared;
  }

  /** One turn of the loop. */
  method ReadMember(ghost seen: seq<Member>, index: nat, m: Member, declared: set<Entry>, directories: set<Entry>,
                    files: set<Entry>, expanded: int)
    returns (ok: bool, declared': set<Entry>, directories': set<Entry>, files': set<Entry>, expanded': int)
    requires Met(seen, declared, directories, files, expanded) && index == |seen| + 1
    ensures ok <==> Admissible(seen + [m])
    ensures ok ==> Met(seen + [m], declared', directories', files', expanded')
  {
    MetOneMore(seen, m, declared, directories, files, expanded);
    declared', directories', files', expanded' := declared, directories, files, expanded;
    ok := Passes(index, m, declared, directories, files, expanded);
    if ok {
      declared' := declared + {m.entry};
      if m.kind.Directory? {
        directories' := directories + {m.entry};
      } else {
        files' := files + {m.entry};
        expanded' := expanded + m.size;
      }
      directories' := directories' + Parents(m.entry);
    }
  }

  /** `_archive_bytes`: reading the members once, with the entries, directories and files met
      so far, admits exactly the admissible archives, and tells how many bytes they expand to. */
  method ArchiveBytes(members: seq<Member>) returns (r: Option<int>)
    ensures r.Some? <==> Admissible(members)
    ensures r.Some? ==> r.value == Expanded(members)
  {
    var declared: set<Entry>, directories: set<Entry>, files: set<Entry>, expanded := {}, {}, {}, 0;
    var k := 0;
    while k < |members|
      invariant 0 <= k <= |members| && Met(members[..k], declared, directories, files, expanded)
    {
      var ok;
      ok, declared, directories, files, expanded :=
        ReadMember(members[..k], k + 1, members[k], declared, directories, files, expanded);
      assert members[..k + 1] == members[..k] + [members[k]];
      if !ok {
        RefusalIsFinal(members, k);
        return None;
      }
      k := k + 1;
    }
    assert members[..k] == members;
    AllMet(members, declared, directories, files, expanded);
    r := if declared == {} then None else Some(expanded);
  }

  // ---- extraction ----

  datatype Node = Folder | File(data: string)

  type Tree = map<Entry, Node>

  /** Extracting one member: missing folders above it are made, and then the member itself.
      It fails where a file stands in for a folder, or a folder for a file. */
  function ExtractOne(tree: Tree, m: Member): Option<Tree> {
    var kept := map e | e in Parents(m.entry) && e !in tree :: Folder;
    if exists e :: e in Parents(m.entry) && e in tree && tree[e].File? then None
    else if m.kind.Directory? then
      if m.entry in tree && tree[m.entry].File? then None else Some((tree + kept)[m.entry := Folder])
    else
      if m.entry in tree && tree[m.entry].Folder? then None else Some((tree + kept)[m.entry := File(m.data)])
  }

  function Extract(members: seq<Member>): Option<Tree> {
    if members == [] then Some(map[])
    else
      match Extract(members[..|members| - 1])
      case None => None
      case Some(tree) => ExtractOne(tree, members[|members| - 1])
  }

  function Reached(members: seq<Member>): set<Entry> {
    Entries(members) + set m, p | m in members && p in Parents(m.entry) :: p
  }

  predicate FileAt(members: seq<Member>, e: Entry, data: string) {
    exists m :: m in members && m.kind.RegularFile? && m.entry == e && m.data == data
  }

  /** The tree an archive describes, whatever its order: the entries and everything above
      them, with the data of the file members, and folders everywhere else. */
  ghost predicate Depicts(tree: Tree, members: seq<Member>) {
    && tree.Keys == Reached(members)
    && forall e :: e in tree ==>
         if e in Files(members) then tree[e].File? && FileAt(members, e, tree[e].data) else tree[e].Folder?
  }

  lemma ReachedGrows(members: seq<Member>, m: Member)
    ensures Reached(members + [m]) == Reached(members) + {m.entry} + Parents(m.entry)
  {
    assert forall n :: n in members + [m] <==> n in members || n == m;
  }

  /** The same entry twice, to the same effect. */
  predicate Repeats(m: Member, n: Member) {
    m.entry == n.entry && m.kind == n.kind && (m.kind.RegularFile? ==> m.data == n.data)
  }

  predicate Fit(m: Member, n: Member) {
    Compatible(m, n) || Repeats(m, n)
  }

  ghost predicate AllFit(members: seq<Member>) {
    forall m, n :: m in members && n in members ==> Fit(m, n)
  }

  lemma {:induction false} CompatibleFit(members: seq<Member>)
    requires PairwiseCompatible(members)
    ensures AllFit(members)
  {
    if members != [] {
      var rest := members[1..];
      CompatibleFit(rest);
      forall m, n | m in members && n in members ensures Fit(m, n) {
        assert (m == members[0] || m in rest) && (n == members[0] || n in rest);
      }
    }
  }

  lemma NothingInTheWay(tree: Tree, members: seq<Member>, m: Member)
    requires Depicts(tree, members) && WellFormed(m) && forall n :: n in members ==> Fit(m, n)
    ensures ExtractOne(tree, m).Some?
    ensures Files(members) !! Parents(m.entry) && (m.entry in Files(members) ==> m.kind.RegularFile?)
    ensures m.kind.RegularFile? && m.entry in tree ==> m.entry in Files(members)
  {
    assert m.entry !in Parents(m.entry);
    forall e | e in tree && e !in Files(members) ensures tree[e].Folder? { }
  }

  lemma ExtractOneTree(tree: Tree, m: Member, e: Entry)
    requires ExtractOne(tree, m).Some?
    ensures var bigger := ExtractOne(tree, m).value;
      && (e in bigger <==> e in tree || e == m.entry || e in Parents(m.entry))
      && (e in bigger ==> bigger[e] == if e == m.entry then (if m.kind.Directory? then Folder else File(m.data))
                                       else if e in tree then tree[e] else Folder)
  {
  }

  lemma ExtractOneDepicts(tree: Tree, members: seq<Member>, m: Member)
    requires Depicts(tree, members) && WellFormed(m) && forall n :: n in members ==> Fit(m, n)
    ensures ExtractOne(tree, m).Some? && Depicts(ExtractOne(tree, m).value, members + [m])
  {
    NothingInTheWay(tree, members, m);
    ReachedGrows(members, m);
    SetsGrow(members, m);
    forall e { ExtractOneTree(tree, m, e); }
    ghost var bigger := ExtractOne(tree, m).value;
    forall e | e in bigger
      ensures if e in Files(members + [m]) then bigger[e].File? && FileAt(members + [m], e, bigger[e].data)
              else bigger[e].Folder?
    {
      if e == m.entry && m.kind.RegularFile? {
        assert m in members + [m];
      } else if e in Files(members) {
        var n :| n in members && n.kind.RegularFile? && n.entry == e && n.data == tree[e].data;
        assert n in members + [m];
      }
    }
  }

  /** Members that fit together are extracted without a conflict into the tree they describe. */
  lemma {:induction false} ExtractionSucceeds(members: seq<Member>)
    requires AllWellFormed(members) && AllFit(members)
    ensures Extract(members).Some? && Depicts(Extract(members).value, members)
    decreases |members|
  {
    if members != [] {
      var (front, m) := (members[..|members| - 1], members[|members| - 1]);
      assert members == front + [m];
      ExtractionSucceeds(front);
      ExtractOneDepicts(Extract(front).value, front, m);
    }
  }

  lemma DepictionIsUnique(tree: Tree, other: Tree, members: seq<Member>)
    requires AllFit(members) && Depicts(tree, members) && Depicts(other, members)
    ensures tree == other
  {
    forall e | e in tree ensures tree[e] == other[e] {
      if e in Files(members) {
        var m :| m in members && m.kind.RegularFile? && m.entry == e && m.data == tree[e].data;
        var n :| n in members && n.kind.RegularFile? && n.entry == e && n.data == other[e].data;
        assert Fit(m, n);
      }
    }
  }

  lemma DepictionIgnoresOrder(tree: Tree, members: seq<Member>, other: seq<Member>)
    requires multiset(members) == multiset(other) && Depicts(tree, members)
    ensures Depicts(tree, other)
  {
    SameMembers(members, other);
    assert Reached(members) == Reached(other) && Files(members) == Files(other);
    forall e, data | FileAt(members, e, data) ensures FileAt(other, e, data) {
      var m :| m in members && m.kind.RegularFile? && m.entry == e && m.data == data;
      assert m in other;
    }
  }

  lemma FittingIgnoresOrder(members: seq<Member>, other: seq<Member>)
    requires AllWellFormed(members) && AllFit(members) && multiset(members) == multiset(other)
    ensures Extract(members).Some? && Extract(other) == Extract(members)
  {
    SameMembers(members, other);
    ExtractionSucceeds(members);
    ExtractionSucceeds(other);
    DepictionIgnoresOrder(Extract(other).value, other, members);
    DepictionIsUnique(Extract(members).value, Extract(other).value, members);
  }

  /** An archive that passes the check gives the same tree in every order of extraction. */
  lemma ExtractionIgnoresOrder(members: seq<Member>, other: seq<Member>)
    requires Admissible(members) && multiset(members) == multiset(other)
    ensures Extract(members).Some? && Extract(other) == Extract(members)
  {
    CompatibleFit(members);
    FittingIgnoresOrder(members, other);
  }

  // ---- which archives do not depend on the order ----

  /** Every order of extraction succeeds and gives the same tree. */
  ghost predicate OrderFree(members: seq<Member>) {
    && Extract(members).Some?
    && forall other :: multiset(other) == multiset(members) ==> Extract(other) == Extract(members)
  }

  lemma ExtractLastTwo(rest: seq<Member>, m: Member, n: Member)
    requires Extract(rest + [m, n]).Some?
    ensures Extract(rest).Some? && ExtractOne(Extract(rest).value, m).Some?
    ensures Extract(rest + [m, n]) == ExtractOne(ExtractOne(Extract(rest).value, m).value, n)
  {
    var both := rest + [m, n];
    assert both[..|both| - 1] == rest + [m] && (rest + [m])[..|rest|] == rest;
  }

  /** Two members that can be extracted into a tree in either order, with one result, fit. */
  lemma CommutingMembersFit(tree: Tree, m: Member, n: Member)
    requires WellFormed(m) && WellFormed(n)
    requires ExtractOne(tree, m).Some? && ExtractOne(tree, n).Some?
    requires var (first, second) := (ExtractOne(tree, m).value, ExtractOne(tree, n).value);
      ExtractOne(first, n).Some? && ExtractOne(first, n) == ExtractOne(second, m)
    ensures Fit(m, n)
  {
    var (first, second) := (ExtractOne(tree, m).value, ExtractOne(tree, n).value);
    ExtractOneTree(tree, m, m.entry);
    ExtractOneTree(tree, n, n.entry);
    ExtractOneTree(first, n, n.entry);
    ExtractOneTree(second, m, n.entry);
  }

  lemma TwoOrders(members: seq<Member>, i: nat, j: nat) returns (rest: seq<Member>)
    requires i < j < |members|
    ensures multiset(rest + [members[i], members[j]]) == multiset(members)
    ensures multiset(rest + [members[j], members[i]]) == multiset(members)
  {
    var (a, b, c) := (members[..i], members[i + 1..j], members[j + 1..]);
    assert members == a + [members[i]] + b + [members[j]] + c;
    rest := a + b + c;
  }

  lemma OrderFreePairFits(members: seq<Member>, i: nat, j: nat)
    requires AllWellFormed(members) && OrderFree(members) && i < j < |members|
    ensures Fit(members[i], members[j])
  {
    var rest := TwoOrders(members, i, j);
    ExtractLastTwo(rest, members[i], members[j]);
    ExtractLastTwo(rest, members[j], members[i]);
    CommutingMembersFit(Extract(rest).value, members[i], members[j]);
  }

  lemma FitIsSymmetric(m: Member, n: Member)
    ensures Fit(m, n) <==> Fit(n, m)
  {
  }

  lemma OrderFreeFit(members: seq<Member>)
    requires AllWellFormed(members) && OrderFree(members)
    ensures AllFit(members)
  {
    forall m, n | m in members && n in members ensures Fit(m, n) {
      var i, j :| 0 <= i < |members| && 0 <= j < |members| && members[i] == m && members[j] == n;
      if i < j { OrderFreePairFits(members, i, j); }
      if j < i {
        OrderFreePairFits(members, j, i);
        FitIsSymmetric(m, n);
      }
    }
  }

  /** Extraction gives one tree in every order exactly if any two members are compatible, or one
      repeats the other: apart from such repeats, whatever the check refuses as incompatible is
      ambiguous or cannot be extracted. */
  lemma OrderFreeIffAllFit(members: seq<Member>)
    requires AllWellFormed(members)
    ensures OrderFree(members) <==> AllFit(members)
  {
    if AllFit(members) {
      forall other | multiset(other) == multiset(members) ensures Extract(other) == Extract(members) {
        FittingIgnoresOrder(members, other);
      }
      ExtractionSucceeds(members);
    }
    if OrderFree(members) { OrderFreeFit(members); }
  }

  lemma {:induction false} PairwiseByIndex(members: seq<Member>)
    ensures PairwiseCompatible(members) <==>
              forall i, j :: 0 <= i < j < |members| ==> Compatible(members[i], members[j])
  {
    if members != [] {
      var rest := members[1..];
      PairwiseByIndex(rest);
      assert forall j :: 0 < j < |members| ==> members[j] == rest[j - 1];
    }
  }

  /** Where no member repeats another, the compatibility that the check demands is just what
      makes the order irrelevant. */
  lemma OrderFreeIffCompatible(members: seq<Member>)
    requires AllWellFormed(members)
    requires forall i, j :: 0 <= i < j < |members| ==> !Repeats(members[i], members[j])
    ensures OrderFree(members) <==> PairwiseCompatible(members)
  {
    OrderFreeIffAllFit(members);
    PairwiseByIndex(members);
    if PairwiseCompatible(members) { CompatibleFit(members); }
    if AllFit(members) {
      forall i, j | 0 <= i < j < |members| ensures Compatible(members[i], members[j]) {
        assert Fit(members[i], members[j]);
      }
    }
  }

  // ---- what is asked of one member ----

  lemma ParentsArePrefixes(p: Entry, e: Entry)
    ensures p in Parents(e) <==> p <= e && p != e
  {
    if p <= e && p != e { assert p == e[..|p|]; }
  }

  /** Where the parts of a path lead from a directory, if `..` leads one up. */
  function Resolved(base: Entry, parts: Entry): Entry {
    if parts == [] then base
    else
      var (above, last) := (Resolved(base, parts[..|parts| - 1]), parts[|parts| - 1]);
      if last != ".." then above + [last] else if above == [] then [] else above[..|above| - 1]
  }

  /** The path and all its parts stay where they say, from wherever it is extracted. */
  ghost predicate StaysInside(base: Entry, e: Entry) {
    forall n :: 0 <= n <= |e| ==> Resolved(base, e[..n]) == base + e[..n]
  }

  lemma LastPart(base: Entry, e: Entry, n: nat)
    requires 0 < n <= |e| && Resolved(base, e[..n - 1]) == base + e[..n - 1]
    ensures Resolved(base, e[..n]) == base + e[..n] <==> e[n - 1] != ".."
  {
    assert e[..n][..n - 1] == e[..n - 1];
    assert base + e[..n] == (base + e[..n - 1]) + [e[n - 1]];
  }

  lemma {:induction false} NoneLeadsUp(base: Entry, e: Entry, n: nat)
    requires n <= |e| && ".." !in e
    ensures Resolved(base, e[..n]) == base + e[..n]
  {
    if n == 0 {
      assert base + [] == base;
    } else {
      NoneLeadsUp(base, e, n - 1);
      assert e[n - 1] in e;
      LastPart(base, e, n);
    }
  }

  /** Exactly the paths without `..` stay inside the directory they are extracted to. */
  lemma StaysInsideIff(base: Entry, e: Entry)
    ensures StaysInside(base, e) <==> ".." !in e
  {
    if ".." in e {
      var n :| 0 <= n < |e| && e[n] == "..";
      if StaysInside(base, e) {
        assert Resolved(base, e[..n]) == base + e[..n] && Resolved(base, e[..n + 1]) == base + e[..n + 1];
        LastPart(base, e, n + 1);
      }
    } else {
      forall n | 0 <= n <= |e| ensures Resolved(base, e[..n]) == base + e[..n] { NoneLeadsUp(base, e, n); }
    }
  }

  function TotalSize(members: seq<Member>): int {
    if members == [] then 0 else members[0].size + TotalSize(members[1..])
  }

  /** The members of an admitted archive extract below the directory, none is larger than the whole,
      and the size that is returned is the sum of all their sizes. */
  lemma AdmittedIsBounded(members: seq<Member>, m: Member, base: Entry)
    requires Admissible(members) && m in members
    ensures StaysInside(base, m.entry) && !m.absolute && (m.entry == [] ==> m.kind.Directory?)
    ensures Expanded(members) == TotalSize(members) && 0 <= m.size <= Expanded(members)
  {
    StaysInsideIff(base, m.entry);
    SizesAddUp(members, m);
  }

  lemma {:induction false} SizesAddUp(members: seq<Member>, m: Member)
    requires AllWellFormed(members)
    ensures Expanded(members) == TotalSize(members) >= 0
    ensures m in members ==> 0 <= m.size <= Expanded(members)
  {
    if members != [] {
      assert forall n :: n in members[1..] ==> n in members;
      SizesAddUp(members[1..], m);
      assert WellFormed(members[0]);
      assert m in members ==> m == members[0] || m in members[1..];
    }
  }

  /** An archive of one member is admitted if that is a directory, or a file that is not the root of the
      archive and not too large; an empty file is one. */
  lemma OneMember(m: Member)
    requires !m.absolute && ".." !in m.entry && !m.special && !m.sparse
    ensures m.nameLength > MAX_NAME || m.kind.Other? ==> !Admissible([m])
    ensures m.nameLength <= MAX_NAME && m.kind.Directory? ==> (Admissible([m]) <==> m.size == 0)
    ensures m.nameLength <= MAX_NAME && m.kind.RegularFile? ==>
              (Admissible([m]) <==> m.entry != [] && 0 <= m.size <= MAX_BYTES)
  {
    assert [m][1..] == [] && PairwiseCompatible([m][1..]) && Expanded([m][1..]) == 0;
    assert PairwiseCompatible([m]);
    assert AllWellFormed([m]) <==> WellFormed(m) by { assert m in [m]; }
  }
}
