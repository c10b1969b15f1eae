/** Choosing the groups of a compaction cycle by file size. */
module CompactionGroups {
  import opened Types
  import opened ChunkIndex
  import opened Merging
  import opened Compaction
  import opened CompactionRuns

  type Size = n: nat | n > 0 witness 1

  /** A chunk file with at least one byte. */
  datatype File = File(id: ChunkId, size: Size)

  predicate BySize(fs: seq<File>) {
    forall i, j :: 0 <= i < j < |fs| ==> fs[i].size <= fs[j].size
  }

  ghost predicate Distinct(fs: seq<File>) {
    forall i, j :: 0 <= i < j < |fs| ==> fs[i].id != fs[j].id
  }

  predicate Close(first: File, f: File, ratio: real) {
    f.size as real / first.size as real <= ratio
  }

  // ----- Tiers -----

  /** Length of the longest run from the start whose files are all close to the first. */
  function TierLength(fs: seq<File>, n: nat, ratio: real): (k: nat)
    requires 0 < n <= |fs|
    ensures n <= k <= |fs|
    ensures forall i :: n <= i < k ==> Close(fs[0], fs[i], ratio)
    ensures k < |fs| ==> !Close(fs[0], fs[k], ratio)
    decreases |fs| - n
  {
    if n < |fs| && Close(fs[0], fs[n], ratio) then TierLength(fs, n + 1, ratio) else n
  }

  /** Greedy tiers, from the smallest file up. */
  function Tiers(fs: seq<File>, ratio: real): seq<seq<File>> {
    if fs == [] then []
    else
      var n := TierLength(fs, 1, ratio);
      [fs[..n]] + Tiers(fs[n..], ratio)
  }

  function LongEnough(tiers: seq<seq<File>>, threshold: nat): seq<seq<File>> {
    if tiers == [] then []
    else (if |tiers[0]| >= threshold then [tiers[0]] else []) + LongEnough(tiers[1..], threshold)
  }

  ghost function Concat(tt: seq<seq<File>>): seq<File> {
    if tt == [] then [] else tt[0] + Concat(tt[1..])
  }

  /** All files of a tier are close to its first one. */
  ghost predicate TierOk(tier: seq<File>, ratio: real) {
    forall i :: 0 < i < |tier| ==> Close(tier[0], tier[i], ratio)
  }

  /** No file of the tier is more than `ratio` times as large as its first one. */
  ghost predicate Within(tier: seq<File>, ratio: real) {
    forall i :: 0 < i < |tier| ==> tier[i].size as real <= ratio * tier[0].size as real
  }

  /** Every group has the minimum number of files and keeps to the ratio. */
  ghost predicate Sized(groups: seq<seq<File>>, ratio: real, threshold: nat) {
    forall i :: 0 <= i < |groups| ==> |groups[i]| >= threshold && Within(groups[i], ratio)
  }

  /** Neighbouring tiers: the second begins with a file too large for the first. */
  ghost predicate BeginsAbove(tier: seq<File>, next: seq<File>, ratio: real) {
    tier != [] && next != [] && next[0].size as real > ratio * tier[0].size as real
  }

  ghost predicate TiersOk(tt: seq<seq<File>>, ratio: real) {
    if tt == [] then true
    else tt[0] != [] && Within(tt[0], ratio) && (|tt| > 1 ==> BeginsAbove(tt[0], tt[1], ratio)) && TiersOk(tt[1..], ratio)
  }

  /** The quotient test, in sizes. */
  lemma CloseInSizes(first: File, f: File, ratio: real)
    ensures Close(first, f, ratio) <==> f.size as real <= ratio * first.size as real
  {
    var a, b := first.size as real, f.size as real;
    var q := b / a;
    assert q * a == b;
    if q <= ratio {
      MulMono(q, ratio, a);
    } else {
      MulMonoStrict(ratio, q, a);
    }
  }

  lemma MulMono(x: real, y: real, a: real)
    requires x <= y && a > 0.0
    ensures x * a <= y * a
  {
  }

  lemma MulMonoStrict(x: real, y: real, a: real)
    requires x < y && a > 0.0
    ensures x * a < y * a
  {
  }

  lemma TierWithin(tier: seq<File>, ratio: real)
    requires TierOk(tier, ratio)
    ensures Within(tier, ratio)
  {
    hide Close;
    forall i | 0 < i < |tier| ensures tier[i].size as real <= ratio * tier[0].size as real {
      CloseInSizes(tier[0], tier[i], ratio);
    }
  }

  /** The tiers put the files back together, each keeps to the ratio, and none could have taken one file more. */
  lemma {:induction false} TiersPartition(fs: seq<File>, ratio: real)
    ensures Concat(Tiers(fs, ratio)) == fs && TiersOk(Tiers(fs, ratio), ratio)
  {
    if fs != [] {
      hide Close, Within, BeginsAbove;
      var n := TierLength(fs, 1, ratio);
      var rest := Tiers(fs[n..], ratio);
      TiersPartition(fs[n..], ratio);
      assert fs == fs[..n] + fs[n..];
      assert ([fs[..n]] + rest)[1..] == rest;
      assert TierOk(fs[..n], ratio);
      TierWithin(fs[..n], ratio);
      if rest != [] {
        assert fs[n] == rest[0][0];
        NextAbove(fs[..n], rest[0], ratio);
      }
    }
  }

  lemma NextAbove(tier: seq<File>, next: seq<File>, ratio: real)
    requires tier != [] && next != [] && !Close(tier[0], next[0], ratio)
    ensures BeginsAbove(tier, next, ratio)
  {
    CloseInSizes(tier[0], next[0], ratio);
  }

  /** A full tier followed by a file that is not close to it is split off. */
  lemma TierSplits(current: seq<File>, rest: seq<File>, ratio: real)
    requires current != [] && TierOk(current, ratio)
    requires rest == [] || !Close(current[0], rest[0], ratio)
    ensures Tiers(current + rest, ratio) == [current] + Tiers(rest, ratio)
  {
    hide Close;
    var fs := current + rest;
    TierStops(fs, 1, |current|, ratio);
    assert fs[..|current|] == current && fs[|current|..] == rest;
  }

  lemma {:induction false} TierStops(fs: seq<File>, n: nat, k: nat, ratio: real)
    requires 0 < n <= k <= |fs|
    requires forall i :: n <= i < k ==> Close(fs[0], fs[i], ratio)
    requires k < |fs| ==> !Close(fs[0], fs[k], ratio)
    ensures TierLength(fs, n, ratio) == k
    decreases k - n
  {
    hide Close;
    if n < k {
      TierStops(fs, n + 1, k, ratio);
    }
  }

  /** The groups of a cycle: the tiers with enough files, and the empty one when no minimum is set and no file exists. */
  function Groups(fs: seq<File>, ratio: real, threshold: nat): seq<seq<File>> {
    if fs == [] && threshold == 0 then [[]] else LongEnough(Tiers(fs, ratio), threshold)
  }

  /** What is grouped already, and what the files still to come will add to it. */
  function Outcome(groups: seq<seq<File>>, fs: seq<File>, ratio: real, threshold: nat): seq<seq<File>> {
    groups + LongEnough(Tiers(fs, ratio), threshold)
  }

  lemma OutcomeSplits(groups: seq<seq<File>>, current: seq<File>, rest: seq<File>, ratio: real, threshold: nat)
    requires current != [] && TierOk(current, ratio)
    requires rest == [] || !Close(current[0], rest[0], ratio)
    ensures Outcome(groups, current + rest, ratio, threshold) ==
            Outcome(if |current| >= threshold then groups + [current] else groups, rest, ratio, threshold)
  {
    TierSplits(current, rest, ratio);
    var tt := [current] + Tiers(rest, ratio);
    hide Tiers, Close, TierOk;
    assert tt[1..] == Tiers(rest, ratio);
  }

  lemma TierGrows(current: seq<File>, f: File, ratio: real)
    requires TierOk(current, ratio) && (current == [] || Close(current[0], f, ratio))
    ensures TierOk(current + [f], ratio)
  {
    hide Close;
  }

  lemma Moved(current: seq<File>, fs: seq<File>, i: nat)
    requires i < |fs|
    ensures current + fs[i..] == (current + [fs[i]]) + fs[i + 1..] && fs[i..] == [fs[i]] + fs[i + 1..] && fs[i..][0] == fs[i]
  {
  }

  /** One pass over the files in order of size. */
  method GroupBySize(fs: seq<File>, ratio: real, threshold: nat) returns (groups: seq<seq<File>>)
    ensures groups == Groups(fs, ratio, threshold)
    ensures Sized(groups, ratio, threshold)
  {
    groups := [];
    var current: seq<File> := [];
    assert [] + fs[0..] == fs && TierOk(current, ratio);
    hide *;
    for i := 0 to |fs|
      invariant TierOk(current, ratio) && (if i > 0 then current != [] else current == [] && groups == [])
      invariant Outcome(groups, current + fs[i..], ratio, threshold) == Outcome([], fs, ratio, threshold)
    {
      Moved(current, fs, i);
      if current == [] || Close(current[0], fs[i], ratio) {
        TierGrows(current, fs[i], ratio);
        current := current + [fs[i]];
      } else {
        OutcomeSplits(groups, current, fs[i..], ratio, threshold);
        if |current| >= threshold {
          groups := groups + [current];
        }
        TierOne(fs[i], ratio);
        current := [fs[i]];
      }
    }
    assert current + fs[|fs|..] == current + [];
    ghost var before := groups;
    if |current| >= threshold {
      groups := groups + [current];
    }
    OutcomeDone(fs, before, current, groups, ratio, threshold);
    GroupsWithin(fs, ratio, threshold);
  }

  lemma GroupsWithin(fs: seq<File>, ratio: real, threshold: nat)
    ensures Sized(Groups(fs, ratio, threshold), ratio, threshold)
  {
    hide Within, Tiers, LongEnough;
    TiersPartition(fs, ratio);
    if fs == [] && threshold == 0 {
      NoFilesWithin(ratio);
    } else {
      LongEnoughWithin(Tiers(fs, ratio), ratio, threshold);
      assert Groups(fs, ratio, threshold) == LongEnough(Tiers(fs, ratio), threshold);
    }
  }

  lemma NoFilesWithin(ratio: real)
    ensures Within([], ratio)
  {
  }

  lemma {:induction false} LongEnoughWithin(tt: seq<seq<File>>, ratio: real, threshold: nat)
    requires TiersOk(tt, ratio)
    ensures Sized(LongEnough(tt, threshold), ratio, threshold)
  {
    hide Within, BeginsAbove;
    if tt != [] {
      LongEnoughWithin(tt[1..], ratio, threshold);
      var rest := LongEnough(tt[1..], threshold);
      if |tt[0]| < threshold {
        assert [] + rest == rest;
      }
    }
  }

  lemma TierOne(f: File, ratio: real)
    ensures TierOk([f], ratio)
  {
  }

  lemma OutcomeDone(fs: seq<File>, before: seq<seq<File>>, current: seq<File>, groups: seq<seq<File>>, ratio: real, threshold: nat)
    requires groups == if |current| >= threshold then before + [current] else before
    requires TierOk(current, ratio) && Outcome(before, current + [], ratio, threshold) == Outcome([], fs, ratio, threshold)
    requires if |fs| > 0 then current != [] else current == [] && before == []
    ensures groups == Groups(fs, ratio, threshold)
  {
    if fs != [] {
      OutcomeSplits(before, current, [], ratio, threshold);
      assert groups == Outcome(groups, [], ratio, threshold);
    }
  }

  // ----- Candidates of a cycle -----

  function Ids(fs: seq<File>): seq<ChunkId> {
    seq(|fs|, i requires 0 <= i < |fs| => fs[i].id)
  }

  /** The live files of at least one byte, each once, smallest first. */
  ghost predicate Enumerates(x: Index, fs: seq<File>) {
    && Distinct(fs)
    && BySize(fs)
    && forall c, n: Size :: File(c, n) in fs <==> c in x.files && x.files[c].fileSize == n
  }

  lemma {:induction false} LongEnoughFrom(tt: seq<seq<File>>, threshold: nat, f: File)
    requires f in Concat(LongEnough(tt, threshold))
    ensures f in Concat(tt)
  {
    if |tt[0]| >= threshold {
      assert ([tt[0]] + LongEnough(tt[1..], threshold))[1..] == LongEnough(tt[1..], threshold);
      if f !in tt[0] {
        LongEnoughFrom(tt[1..], threshold, f);
      }
    } else {
      assert [] + LongEnough(tt[1..], threshold) == LongEnough(tt[1..], threshold);
      LongEnoughFrom(tt[1..], threshold, f);
    }
  }

  /** No file is in two tiers, so none is counted or merged twice. */
  lemma {:induction false} LongEnoughDistinct(tt: seq<seq<File>>, threshold: nat)
    requires Distinct(Concat(tt))
    ensures Distinct(Concat(LongEnough(tt, threshold)))
  {
    if tt != [] {
      var rest := Concat(tt[1..]);
      DistinctSplit(tt[0], rest);
      LongEnoughDistinct(tt[1..], threshold);
      var kept := LongEnough(tt[1..], threshold);
      if |tt[0]| >= threshold {
        assert ([tt[0]] + kept)[1..] == kept;
        forall a, b | a in tt[0] && b in Concat(kept) ensures a.id != b.id {
          LongEnoughFrom(tt[1..], threshold, b);
        }
        DistinctJoin(tt[0], Concat(kept));
      } else {
        assert [] + kept == kept;
      }
    }
  }

  lemma DistinctSplit(a: seq<File>, b: seq<File>)
    requires Distinct(a + b)
    ensures Distinct(a) && Distinct(b) && forall f, g :: f in a && g in b ==> f.id != g.id
  {
    var fs := a + b;
    forall i, j | 0 <= i < j < |b| ensures b[i].id != b[j].id {
      assert fs[|a| + i] == b[i] && fs[|a| + j] == b[j];
    }
    forall i, j | 0 <= i < j < |a| ensures a[i].id != a[j].id {
      assert fs[i] == a[i] && fs[j] == a[j];
    }
    forall f, g | f in a && g in b ensures f.id != g.id {
      var i :| 0 <= i < |a| && a[i] == f;
      var j :| 0 <= j < |b| && b[j] == g;
      assert fs[i] == f && fs[|a| + j] == g;
    }
  }

  lemma DistinctJoin(a: seq<File>, b: seq<File>)
    requires Distinct(a) && Distinct(b) && forall f, g :: f in a && g in b ==> f.id != g.id
    ensures Distinct(a + b)
  {
    var fs := a + b;
    forall i, j | 0 <= i < j < |fs| ensures fs[i].id != fs[j].id {
      if i < |a| <= j {
        assert fs[i] in a && fs[j] in b;
      }
    }
  }

  /** Every group has the minimum number of files, drawn from the live ones, and no file is in two places. */
  lemma GroupsOk(fs: seq<File>, ratio: real, threshold: nat)
    requires Distinct(fs)
    ensures Distinct(Concat(Groups(fs, ratio, threshold)))
    ensures forall f :: f in Concat(Groups(fs, ratio, threshold)) ==> f in fs
    ensures forall i :: 0 <= i < |Groups(fs, ratio, threshold)| ==> |Groups(fs, ratio, threshold)[i]| >= threshold
  {
    var tt := Tiers(fs, ratio);
    TiersPartition(fs, ratio);
    LongEnoughDistinct(tt, threshold);
    forall f | f in Concat(LongEnough(tt, threshold)) ensures f in fs {
      LongEnoughFrom(tt, threshold, f);
    }
    LongEnoughLengths(tt, threshold);
    hide Tiers, LongEnough;
    if fs == [] && threshold == 0 {
      assert Groups(fs, ratio, threshold) == [[]];
      assert Concat([[]]) == [];
    }
  }

  lemma {:induction false} LongEnoughLengths(tt: seq<seq<File>>, threshold: nat)
    ensures forall i :: 0 <= i < |LongEnough(tt, threshold)| ==> |LongEnough(tt, threshold)[i]| >= threshold
  {
    if tt != [] {
      LongEnoughLengths(tt[1..], threshold);
    }
  }

  /** A tier left alone is one that is too short. */
  lemma {:induction false} LeftAlone(tt: seq<seq<File>>, threshold: nat, f: File)
    requires f in Concat(tt)
    ensures f in Concat(LongEnough(tt, threshold)) || exists i :: 0 <= i < |tt| && f in tt[i] && |tt[i]| < threshold
  {
    var kept := LongEnough(tt[1..], threshold);
    assert ([tt[0]] + kept)[1..] == kept && [] + kept == kept;
    if f !in tt[0] {
      LeftAlone(tt[1..], threshold, f);
      if i :| 0 <= i < |tt[1..]| && f in tt[1..][i] && |tt[1..][i]| < threshold {
        assert f in tt[i + 1];
      }
    }
  }

  /** The members of different groups differ. */
  lemma {:induction false} GroupsApart(groups: seq<seq<File>>, i: nat, j: nat)
    requires Distinct(Concat(groups)) && i < j < |groups|
    ensures Members(Ids(groups[i])) !! Members(Ids(groups[j]))
  {
    DistinctSplit(groups[0], Concat(groups[1..]));
    if i > 0 {
      GroupsApart(groups[1..], i - 1, j - 1);
    } else {
      forall f | f in groups[j] ensures f in Concat(groups[1..]) {
        InConcat(groups[1..], j - 1, f);
      }
    }
  }

  lemma {:induction false} InConcat(groups: seq<seq<File>>, j: nat, f: File)
    requires j < |groups| && f in groups[j]
    ensures f in Concat(groups)
  {
    if j > 0 {
      InConcat(groups[1..], j - 1, f);
    }
  }

  /** The removal list of a group: a scan of all index entries. */
  method CollectListed(x: Index, group: seq<ChunkId>) returns (ds: seq<Listed>)
    ensures Lists(x, group, ds)
  {
    var all: set<Listed> := set id: SeriesId, t: i64 | id in x.times && t in x.times[id] && x.times[id][t].chunk in group :: (id, x.times[id][t].chunk, t);
    var left := all;
    ds := [];
    while left != {}
      invariant left <= all && forall d :: d in ds <==> d in all && d !in left
      decreases |left|
    {
      var d :| d in left;
      left := left - {d};
      ds := ds + [d];
    }
    forall id: SeriesId, c: ChunkId, t: i64 ensures (id, c, t) in ds <==> OwnedBy(x, group, id, c, t) {
      assert (id, c, t) in ds <==> (id, c, t) in all;
    }
  }

  /** The groups of a cycle with their removal lists: what the cycle needs to start. */
  method FindCandidates(x: Index, fs: seq<File>, ratio: real, threshold: nat) returns (plans: seq<Plan>)
    requires Enumerates(x, fs)
    ensures PlansOk(x, plans)
    ensures |plans| == |Groups(fs, ratio, threshold)|
    ensures forall i :: 0 <= i < |plans| ==> plans[i].group == Ids(Groups(fs, ratio, threshold)[i])
    ensures forall i :: 0 <= i < |plans| ==> |plans[i].group| >= threshold && SizesWithin(x, plans[i].group, ratio)
  {
    var groups := GroupBySize(fs, ratio, threshold);
    GroupsOk(fs, ratio, threshold);
    hide *;
    plans := [];
    for i := 0 to |groups|
      invariant |plans| == i && forall j :: 0 <= j < i ==> plans[j].group == Ids(groups[j]) && PlanOk(x, plans[j])
    {
      var ds := CollectListed(x, Ids(groups[i]));
      GroupLive(x, fs, groups, i);
      OnePlan(x, Ids(groups[i]), ds);
      plans := plans + [Plan(Ids(groups[i]), ds)];
    }
    PlansApart(x, groups, plans);
    forall i | 0 <= i < |plans| ensures |plans[i].group| >= threshold && SizesWithin(x, plans[i].group, ratio) {
      CandidateSizes(x, fs, ratio, threshold, i);
    }
  }

  lemma OnePlan(x: Index, group: seq<ChunkId>, ds: seq<Listed>)
    requires (forall c :: c in group ==> c in x.files) && Lists(x, group, ds)
    ensures PlanOk(x, Plan(group, ds))
  {
  }

  lemma PlansApart(x: Index, groups: seq<seq<File>>, plans: seq<Plan>)
    requires Distinct(Concat(groups)) && |plans| == |groups|
    requires forall i :: 0 <= i < |plans| ==> plans[i].group == Ids(groups[i]) && PlanOk(x, plans[i])
    ensures PlansOk(x, plans)
  {
    hide Lists, Members, Concat, Distinct, Ids;
    forall i, j | 0 <= i < j < |plans| ensures Members(plans[i].group) !! Members(plans[j].group) {
      GroupsApart(groups, i, j);
    }
  }

  lemma CandidateSizes(x: Index, fs: seq<File>, ratio: real, threshold: nat, i: nat)
    requires Enumerates(x, fs) && i < |Groups(fs, ratio, threshold)|
    ensures var group := Ids(Groups(fs, ratio, threshold)[i]); |group| >= threshold && SizesWithin(x, group, ratio)
  {
    hide Groups, Concat, SizesWithin, Within;
    GroupsOk(fs, ratio, threshold);
    GroupsWithin(fs, ratio, threshold);
    GroupSorted(fs, ratio, threshold, i);
    GroupSizes(x, fs, Groups(fs, ratio, threshold), ratio, i);
  }

  /** The first chunk of a group is its smallest file, and no file is more than `ratio` times as large. */
  ghost predicate SizesWithin(x: Index, group: seq<ChunkId>, ratio: real) {
    && (forall c :: c in group ==> c in x.files && x.files[c].fileSize > 0)
    && (forall c :: c in group ==> x.files[group[0]].fileSize <= x.files[c].fileSize)
    && (forall k :: 0 < k < |group| ==> x.files[group[k]].fileSize as real <= ratio * x.files[group[0]].fileSize as real)
  }

  lemma GroupSizes(x: Index, fs: seq<File>, groups: seq<seq<File>>, ratio: real, i: nat)
    requires Enumerates(x, fs) && (forall f :: f in Concat(groups) ==> f in fs) && i < |groups|
    requires Within(groups[i], ratio) && BySize(groups[i])
    ensures SizesWithin(x, Ids(groups[i]), ratio) && |Ids(groups[i])| == |groups[i]|
  {
    hide Concat;
    var group := groups[i];
    forall k | 0 <= k < |group| ensures group[k].id in x.files && x.files[group[k].id].fileSize == group[k].size {
      InConcat(groups, i, group[k]);
      assert File(group[k].id, group[k].size) in fs;
    }
    forall c | c in Ids(group) ensures c in x.files && x.files[group[0].id].fileSize <= x.files[c].fileSize && x.files[c].fileSize > 0 {
      var k :| 0 <= k < |group| && group[k].id == c;
    }
  }

  lemma {:induction false} PartSorted(tt: seq<seq<File>>, i: nat)
    requires BySize(Concat(tt)) && i < |tt|
    ensures BySize(tt[i])
  {
    var fs, rest := Concat(tt), Concat(tt[1..]);
    assert forall k :: 0 <= k < |tt[0]| ==> fs[k] == tt[0][k];
    assert forall k :: 0 <= k < |rest| ==> fs[|tt[0]| + k] == rest[k];
    if i > 0 {
      PartSorted(tt[1..], i - 1);
    }
  }

  lemma {:induction false} LongEnoughPart(tt: seq<seq<File>>, threshold: nat, i: nat)
    requires i < |LongEnough(tt, threshold)|
    ensures LongEnough(tt, threshold)[i] in tt
  {
    var head := if |tt[0]| >= threshold then 1 else 0;
    if i >= head {
      LongEnoughPart(tt[1..], threshold, i - head);
    }
  }

  lemma GroupSorted(fs: seq<File>, ratio: real, threshold: nat, i: nat)
    requires BySize(fs) && i < |Groups(fs, ratio, threshold)|
    ensures BySize(Groups(fs, ratio, threshold)[i])
  {
    hide Tiers, LongEnough, Concat, BySize;
    if fs == [] && threshold == 0 {
      assert BySize([]) by { NoneSorted(); }
    } else {
      var tt := Tiers(fs, ratio);
      TiersPartition(fs, ratio);
      LongEnoughPart(tt, threshold, i);
      var k :| 0 <= k < |tt| && tt[k] == LongEnough(tt, threshold)[i];
      PartSorted(tt, k);
    }
  }

  lemma NoneSorted()
    ensures BySize([])
  {
  }

  lemma GroupLive(x: Index, fs: seq<File>, groups: seq<seq<File>>, i: nat)
    requires Enumerates(x, fs) && (forall f :: f in Concat(groups) ==> f in fs) && i < |groups|
    ensures forall c :: c in Ids(groups[i]) ==> c in x.files
  {
    forall c | c in Ids(groups[i]) ensures c in x.files {
      var j :| 0 <= j < |groups[i]| && groups[i][j].id == c;
      InConcat(groups, i, groups[i][j]);
      assert File(c, groups[i][j].size) in fs;
    }
  }

  // ----- Accounting -----

  ghost function Total(fs: seq<File>): nat {
    if fs == [] then 0 else Total(fs[..|fs| - 1]) + fs[|fs| - 1].size
  }

  lemma TotalOne(f: File)
    ensures Total([f]) == f.size
  {
    assert [f][..0] == [];
  }

  lemma {:induction false} TotalConcat(a: seq<File>, b: seq<File>)
    ensures Total(a + b) == Total(a) + Total(b)
  {
    if b == [] {
      assert a + b == a;
    } else {
      TotalConcat(a, b[..|b| - 1]);
      assert (a + b)[..|a + b| - 1] == a + b[..|b| - 1];
    }
  }

  lemma {:induction false} ConcatSnoc(tt: seq<seq<File>>, last: seq<File>)
    ensures Concat(tt + [last]) == Concat(tt) + last
  {
    if tt == [] {
      assert ([last])[1..] == [] && last + [] == last && [] + last == last && [] + [last] == [last];
    } else {
      ConcatSnoc(tt[1..], last);
      assert (tt + [last])[1..] == tt[1..] + [last];
      assert tt[0] + (Concat(tt[1..]) + last) == tt[0] + Concat(tt[1..]) + last;
    }
  }

  /** Bytes and number of the files a cycle consumes, looked up in the index: every file counts once. */
  method CycleTotals(x: Index, fs: seq<File>, groups: seq<seq<File>>) returns (oldBytes: nat, chunksMerged: nat)
    requires Enumerates(x, fs) && (forall f :: f in Concat(groups) ==> f in fs) && Distinct(Concat(groups))
    ensures oldBytes == Total(Concat(groups)) && chunksMerged == |Concat(groups)|
  {
    oldBytes, chunksMerged := 0, 0;
    for i := 0 to |groups|
      invariant oldBytes == Total(Concat(groups[..i])) && chunksMerged == |Concat(groups[..i])|
    {
      var sum := GroupBytes(x, fs, groups, i);
      assert groups[..i + 1] == groups[..i] + [groups[i]];
      ConcatSnoc(groups[..i], groups[i]);
      TotalConcat(Concat(groups[..i]), groups[i]);
      hide Total, Concat;
      oldBytes, chunksMerged := oldBytes + sum, chunksMerged + |groups[i]|;
    }
    assert groups[..|groups|] == groups;
  }

  method GroupBytes(x: Index, fs: seq<File>, groups: seq<seq<File>>, i: nat) returns (sum: nat)
    requires Enumerates(x, fs) && (forall f :: f in Concat(groups) ==> f in fs) && i < |groups|
    ensures sum == Total(groups[i])
  {
    var group := groups[i];
    sum := 0;
    for j := 0 to |group|
      invariant sum == Total(group[..j])
    {
      assert group[..j + 1][..j] == group[..j];
      InConcat(groups, i, group[j]);
      assert File(group[j].id, group[j].size) in fs;
      if group[j].id in x.files {
        sum := sum + x.files[group[j].id].fileSize;
      }
    }
    assert group[..|group|] == group;
  }
}
