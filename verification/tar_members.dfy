/**
 `disambiguate_tar_members`: the names in an archive end up pairwise distinct, and the open-ended search
 for a free suffix ends.
 */
module TarMembers {
  import opened SessionText

  /** The parts of a source path that the algorithm asks the path library for. */
  datatype SourcePath = SourcePath(text: string, leaf: string, parent: string, parentName: string, grandparent: string)

  datatype TarMemberEntry = TarMemberEntry(baseDir: string, member: string, source: SourcePath)

  function DirOrDot(dir: string): string {
    if dir == "" then "." else dir
  }

  function Members(entries: seq<TarMemberEntry>): seq<string> {
    seq(|entries|, i requires 0 <= i < |entries| => entries[i].member)
  }

  function Count(names: seq<string>, name: string): nat {
    if names == [] then 0 else Count(names[..|names| - 1], name) + if names[|names| - 1] == name then 1 else 0
  }

  /** The second pass: a name that occurs more than once gets its parent directory in front. */
  function Qualified(e: TarMemberEntry, count: nat): TarMemberEntry {
    var parent := e.source.parentName;
    if count <= 1 || parent == "" || parent == "." || parent == ".." then e
    else e.(member := parent + "/" + e.member, baseDir := DirOrDot(e.source.grandparent))
  }

  function AllQualified(entries: seq<TarMemberEntry>): seq<TarMemberEntry> {
    seq(|entries|, i requires 0 <= i < |entries| => Qualified(entries[i], Count(Members(entries), entries[i].member)))
  }

  function Numbered(suffix: nat, leaf: string): string {
    Decimal(suffix) + "_" + leaf
  }

  /** `suffix` is the first one from 2 on whose name is free. */
  predicate FirstFree(used: set<string>, leaf: string, suffix: nat) {
    && suffix >= 2 && Numbered(suffix, leaf) !in used
    && forall k :: 2 <= k < suffix ==> Numbered(k, leaf) in used
  }

  /** The third pass for one entry, given the names already taken. */
  ghost predicate Settles(used: set<string>, was: TarMemberEntry, now: TarMemberEntry) {
    if was.member !in used then now == was
    else
      exists suffix: nat :: FirstFree(used, was.source.leaf, suffix)
        && now == was.(member := Numbered(suffix, was.source.leaf), baseDir := DirOrDot(was.source.parent))
  }

  function Names(entries: seq<TarMemberEntry>): set<string> {
    set e | e in entries :: e.member
  }

  predicate DistinctMembers(entries: seq<TarMemberEntry>) {
    forall i, j :: 0 <= i < j < |entries| ==> entries[i].member != entries[j].member
  }

  // ----- The probing loop ends -----

  lemma NumberedIsInjective(a: nat, b: nat, leaf: string)
    requires Numbered(a, leaf) == Numbered(b, leaf)
    ensures a == b
  {
    var x, y := Numbered(a, leaf), Numbered(b, leaf);
    assert x[..|x| - |leaf| - 1] == Decimal(a) && y[..|y| - |leaf| - 1] == Decimal(b);
    DecimalRoundTrip(a);
    DecimalRoundTrip(b);
  }

  /** The candidates for suffixes from 2 up to `n`. */
  function Candidates(leaf: string, n: nat): set<string> {
    if n < 2 then {} else Candidates(leaf, n - 1) + {Numbered(n, leaf)}
  }

  lemma {:induction false} CandidatesAre(leaf: string, n: nat)
    ensures forall s :: s in Candidates(leaf, n) <==> exists k :: 2 <= k <= n && s == Numbered(k, leaf)
  {
    if n >= 2 {
      CandidatesAre(leaf, n - 1);
    }
  }

  lemma {:induction false} CandidatesAreMany(leaf: string, n: nat)
    requires n >= 1
    ensures |Candidates(leaf, n)| == n - 1
  {
    if n >= 2 {
      CandidatesAreMany(leaf, n - 1);
      CandidatesAre(leaf, n - 1);
      if Numbered(n, leaf) in Candidates(leaf, n - 1) {
        var k :| 2 <= k <= n - 1 && Numbered(n, leaf) == Numbered(k, leaf);
        NumberedIsInjective(n, k, leaf);
      }
    }
  }

  lemma SubsetIsNoLarger<T>(small: set<T>, large: set<T>)
    requires small <= large
    ensures |small| <= |large|
  {
    assert large == small + (large - small);
  }

  /** At most as many suffixes are taken as there are names: one of |used| + 1 tries succeeds. */
  lemma TakenSuffixesAreFew(used: set<string>, leaf: string, n: nat)
    requires n >= 1 && forall k :: 2 <= k <= n ==> Numbered(k, leaf) in used
    ensures n - 1 <= |used|
  {
    CandidatesAre(leaf, n);
    CandidatesAreMany(leaf, n);
    SubsetIsNoLarger(Candidates(leaf, n), used);
  }

  /** `for (int suffix = 2;; ++suffix)`. */
  method FindFreeSuffix(used: set<string>, leaf: string) returns (suffix: nat)
    ensures FirstFree(used, leaf, suffix) && suffix <= |used| + 2
  {
    suffix := 2;
    while Numbered(suffix, leaf) in used
      invariant suffix >= 2 && forall k :: 2 <= k < suffix ==> Numbered(k, leaf) in used
      decreases |used| + 2 - suffix
    {
      TakenSuffixesAreFew(used, leaf, suffix);
      suffix := suffix + 1;
    }
    TakenSuffixesAreFew(used, leaf, suffix - 1);
  }

  // ----- The three passes -----

  method CountMembers(entries: array<TarMemberEntry>) returns (counts: map<string, nat>)
    ensures forall i :: 0 <= i < entries.Length ==> entries[i].member in counts
    ensures forall name :: name in counts ==> counts[name] == Count(Members(entries[..]), name)
  {
    counts := map[];
    ghost var names := Members(entries[..]);
    for i := 0 to entries.Length
      invariant forall k :: 0 <= k < i ==> entries[k].member in counts
      invariant forall name :: name in counts ==> counts[name] == Count(names[..i], name)
      invariant forall name :: name !in counts ==> Count(names[..i], name) == 0
    {
      var name := entries[i].member;
      assert names[..i + 1][..i] == names[..i];
      counts := counts[name := (if name in counts then counts[name] else 0) + 1];
    }
    assert names[..entries.Length] == names;
  }

  method QualifyRepeated(entries: array<TarMemberEntry>)
    modifies entries
    ensures entries[..] == AllQualified(old(entries[..]))
  {
    var counts := CountMembers(entries);
    for i := 0 to entries.Length
      invariant forall k :: 0 <= k < i ==> entries[k] == AllQualified(old(entries[..]))[k]
      invariant forall k :: i <= k < entries.Length ==> entries[k] == old(entries[..])[k]
    {
      var e := entries[i];
      var parent := e.source.parentName;
      if counts[e.member] > 1 && parent != "" && parent != "." && parent != ".." {
        entries[i] := e.(member := parent + "/" + e.member, baseDir := DirOrDot(e.source.grandparent));
      }
    }
  }

  ghost predicate SettledUpTo(was: seq<TarMemberEntry>, now: seq<TarMemberEntry>, n: nat)
    requires n <= |was| == |now|
  {
    forall i :: 0 <= i < n ==> Settles(Names(now[..i]), was[i], now[i])
  }

  ghost predicate AllSettled(was: seq<TarMemberEntry>, now: seq<TarMemberEntry>) {
    |was| == |now| && SettledUpTo(was, now, |now|)
  }

  lemma SettleOneMore(was: seq<TarMemberEntry>, before: seq<TarMemberEntry>, n: nat, e: TarMemberEntry)
    requires n < |was| == |before| && SettledUpTo(was, before, n) && Settles(Names(before[..n]), was[n], e)
    ensures SettledUpTo(was, before[n := e], n + 1)
    ensures Names(before[n := e][..n + 1]) == Names(before[..n]) + {e.member}
  {
    var now := before[n := e];
    NamesSnoc(before[..n], e);
    assert now[..n + 1] == before[..n] + [e];
    hide Settles, Names;
    forall i | 0 <= i < n + 1 ensures Settles(Names(now[..i]), was[i], now[i]) {
      assert now[..i] == before[..i];
    }
  }

  lemma NamesSnoc(front: seq<TarMemberEntry>, e: TarMemberEntry)
    ensures Names(front + [e]) == Names(front) + {e.member}
  {
    assert forall x :: x in front + [e] <==> x in front || x == e;
  }

  method NumberRepeated(entries: array<TarMemberEntry>)
    modifies entries
    ensures AllSettled(old(entries[..]), entries[..])
  {
    var used: set<string> := {};
    ghost var was := entries[..];
    for i := 0 to entries.Length
      invariant used == Names(entries[..][..i]) && SettledUpTo(was, entries[..], i)
      invariant forall k :: i <= k < entries.Length ==> entries[k] == was[k]
    {
      var e := entries[i];
      ghost var before := entries[..];
      if e.member in used {
        var suffix := FindFreeSuffix(used, e.source.leaf);
        e := e.(member := Numbered(suffix, e.source.leaf), baseDir := DirOrDot(e.source.parent));
        entries[i] := e;
      }
      assert entries[..] == before[i := e];
      SettleOneMore(was, before, i, e);
      used := used + {e.member};
    }
  }

  /** Another entry has the same name, and the source has a parent directory to tell them apart by. */
  predicate NeedsParent(entries: seq<TarMemberEntry>, i: nat)
    requires i < |entries|
  {
    && (exists j :: 0 <= j < |entries| && j != i && entries[j].member == entries[i].member)
    && entries[i].source.parentName !in {"", ".", ".."}
  }

  /** Entry `i` ends under its own name, with its parent directory in front if it needs that; if an earlier entry has
      ended under this name, it is numbered with the first number that is free among the earlier ones. */
  ghost predicate NamedRightly(was: seq<TarMemberEntry>, now: seq<TarMemberEntry>, i: nat)
    requires i < |was| == |now|
  {
    var source := was[i].source;
    var name := if NeedsParent(was, i) then source.parentName + "/" + was[i].member else was[i].member;
    var dir :=
      if !NeedsParent(was, i) then was[i].baseDir else if source.grandparent == "" then "." else source.grandparent;
    if forall j :: 0 <= j < i ==> now[j].member != name then now[i] == TarMemberEntry(dir, name, source)
    else
      exists suffix: nat :: FirstFree(Names(now[..i]), source.leaf, suffix)
        && now[i].member == Decimal(suffix) + "_" + source.leaf && now[i].source == source
        && now[i].baseDir == if source.parent == "" then "." else source.parent
  }

  /** The whole function, on the entries in place. */
  method DisambiguateTarMembers(entries: array<TarMemberEntry>)
    modifies entries
    ensures AllSettled(AllQualified(old(entries[..])), entries[..])
    ensures forall i :: 0 <= i < entries.Length ==> NamedRightly(old(entries[..]), entries[..], i)
    ensures DistinctMembers(entries[..])
    ensures forall i :: 0 <= i < entries.Length ==> entries[i].source == old(entries[i].source)
    ensures DistinctMembers(old(entries[..])) ==> entries[..] == old(entries[..])
  {
    QualifyRepeated(entries);
    NumberRepeated(entries);
    SettledAreDistinct(AllQualified(old(entries[..])), entries[..]);
    SourcesStay(old(entries[..]), entries[..]);
    SettledAreNamedRightly(old(entries[..]), entries[..]);
    hide AllSettled, NamedRightly, AllQualified;
    if DistinctMembers(old(entries[..])) {
      NothingToDo(old(entries[..]), entries[..]);
    }
  }

  // ----- What the passes achieve -----

  lemma {:induction false} CountsRepetition(names: seq<string>, i: nat)
    requires i < |names|
    ensures Count(names, names[i]) > 1 <==> exists j :: 0 <= j < |names| && j != i && names[j] == names[i]
    ensures Count(names, names[i]) >= 1
  {
    var front, last := names[..|names| - 1], |names| - 1;
    if i == last {
      CountsPresence(front, names[i]);
      assert forall j :: 0 <= j < |front| ==> front[j] == names[j];
    } else {
      CountsRepetition(front, i);
      assert forall j :: 0 <= j < |front| ==> front[j] == names[j];
      if names[last] == names[i] {
        assert last != i;
      }
    }
  }

  lemma {:induction false} CountsPresence(names: seq<string>, name: string)
    ensures Count(names, name) > 0 <==> exists j :: 0 <= j < |names| && names[j] == name
  {
    if names != [] {
      var front := names[..|names| - 1];
      CountsPresence(front, name);
      assert forall j :: 0 <= j < |front| ==> front[j] == names[j];
    }
  }

  lemma QualifiedWhenNeeded(entries: seq<TarMemberEntry>, i: nat)
    requires i < |entries|
    ensures var e := entries[i];
      AllQualified(entries)[i]
      == if NeedsParent(entries, i)
         then TarMemberEntry(DirOrDot(e.source.grandparent), e.source.parentName + "/" + e.member, e.source)
         else e
  {
    CountsRepetition(Members(entries), i);
    assert forall j :: 0 <= j < |entries| ==> Members(entries)[j] == entries[j].member;
  }

  lemma NameAmong(entries: seq<TarMemberEntry>, n: nat, name: string)
    requires n <= |entries|
    ensures name in Names(entries[..n]) <==> exists j :: 0 <= j < n && entries[j].member == name
  {
    if j: nat :| j < n && entries[j].member == name {
      assert entries[..n][j] in entries[..n];
    }
  }

  /** What the passes do, in terms of what comes in and goes out. */
  lemma SettledAreNamedRightly(was: seq<TarMemberEntry>, now: seq<TarMemberEntry>)
    requires AllSettled(AllQualified(was), now)
    ensures |was| == |now| && forall i :: 0 <= i < |now| ==> NamedRightly(was, now, i)
  {
    forall i | 0 <= i < |now| ensures NamedRightly(was, now, i) {
      var mid := AllQualified(was)[i];
      QualifiedWhenNeeded(was, i);
      NameAmong(now, i, mid.member);
      assert Settles(Names(now[..i]), mid, now[i]);
      hide NeedsParent, Names, FirstFree, AllQualified;
    }
  }

  /** After the third pass no two members are equal, whatever came in. */
  lemma SettledAreDistinct(was: seq<TarMemberEntry>, now: seq<TarMemberEntry>)
    requires AllSettled(was, now)
    ensures DistinctMembers(now)
  {
    forall i, j | 0 <= i < j < |now| ensures now[i].member != now[j].member {
      assert Settles(Names(now[..j]), was[j], now[j]);
      assert now[i] in now[..j];
      assert now[i].member in Names(now[..j]);
    }
  }

  lemma SourcesStay(entries: seq<TarMemberEntry>, now: seq<TarMemberEntry>)
    requires AllSettled(AllQualified(entries), now)
    ensures forall i :: 0 <= i < |now| ==> now[i].source == entries[i].source
  {
    forall i | 0 <= i < |now| ensures now[i].source == entries[i].source {
      assert Settles(Names(now[..i]), AllQualified(entries)[i], now[i]);
    }
  }

  lemma {:induction false} CountOfDistinct(names: seq<string>, name: string)
    requires forall i, j :: 0 <= i < j < |names| ==> names[i] != names[j]
    ensures Count(names, name) == if name in names then 1 else 0
  {
    if names != [] {
      CountOfDistinct(names[..|names| - 1], name);
      assert names == names[..|names| - 1] + [names[|names| - 1]];
    }
  }

  /** Names that are already distinct are left alone, so disambiguating twice is disambiguating once. */
  lemma NothingToDo(entries: seq<TarMemberEntry>, now: seq<TarMemberEntry>)
    requires DistinctMembers(entries) && AllSettled(AllQualified(entries), now)
    ensures now == entries
  {
    forall i | 0 <= i < |entries| ensures AllQualified(entries)[i] == entries[i] {
      CountOfDistinct(Members(entries), entries[i].member);
    }
    assert AllQualified(entries) == entries;
    DistinctStay(entries, now, |now|);
    assert now[..|now|] == now && entries[..|now|] == entries;
  }

  lemma NameIsNew(entries: seq<TarMemberEntry>, n: nat)
    requires DistinctMembers(entries) && n < |entries|
    ensures entries[n].member !in Names(entries[..n])
  {
  }

  lemma {:induction false} DistinctStay(was: seq<TarMemberEntry>, now: seq<TarMemberEntry>, n: nat)
    requires DistinctMembers(was) && AllSettled(was, now) && n <= |now|
    ensures now[..n] == was[..n]
  {
    hide Names;
    if n > 0 {
      DistinctStay(was, now, n - 1);
      NameIsNew(was, n - 1);
      assert Settles(Names(now[..n - 1]), was[n - 1], now[n - 1]);
      assert now[..n] == now[..n - 1] + [now[n - 1]] && was[..n] == was[..n - 1] + [was[n - 1]];
    }
  }
}
