/**
 * Which files a copy embeds, and in which order, stated against a reference
 * that does not mention the budget or the tree: the files of the selection
 * listed in the order the traversal meets them, kept when their path is met
 * for the first time and they pass the filter, the binary test and the size
 * ceiling. A run that is not stopped by the budget embeds exactly these; a run
 * that is stopped embeds a prefix of them.
 */
module Order {
  import opened Settings
  import opened Engine
  import opened Properties

  /** The files of a tree in the order the traversal meets them: each child of a
      directory completely before the next. */
  function Flatten(e: Entry): (fs: seq<Entry>)
    ensures forall i :: 0 <= i < |fs| ==> fs[i].File?
    ensures forall f :: f in fs <==> f in FilesIn(e)
    decreases e
  {
    match e
    case File(_, _) => [e]
    case Directory(_, children) => FlattenSeq(children)
  }

  function FlattenSeq(es: seq<Entry>): (fs: seq<Entry>)
    ensures forall i :: 0 <= i < |fs| ==> fs[i].File?
    ensures forall f :: f in fs <==> f in FilesInSeq(es)
    decreases es
  {
    if es == [] then [] else Flatten(es[0]) + FlattenSeq(es[1..])
  }

  /** The paths of a list of files. */
  function PathsOf(host: Host, fs: seq<Entry>): (ps: set<string>)
    requires forall i :: 0 <= i < |fs| ==> fs[i].File?
    ensures forall i :: 0 <= i < |fs| ==> RelativePath(host, fs[i]) in ps
  {
    if fs == [] then {}
    else
      var rest := PathsOf(host, fs[1..]);
      assert forall i :: 1 <= i < |fs| ==> fs[1..][i - 1] == fs[i];
      {RelativePath(host, fs[0])} + rest
  }

  /** What embedding a file records. */
  function IncludedOf(host: Host, f: Entry): Included
    requires f.File?
  {
    Included(f, RelativePath(host, f), FileText(host, f.path))
  }

  /** The reference: the files of `fs`, met in this order with the paths of
      `seen` already marked, that get in, in order. */
  function Expected(cfg: State, host: Host, fs: seq<Entry>, seen: set<string>): seq<Included>
    requires forall i :: 0 <= i < |fs| ==> fs[i].File?
  {
    if fs == [] then []
    else
      var f := fs[0];
      var p := RelativePath(host, f);
      var later := Expected(cfg, host, fs[1..], seen + {p});
      if p !in seen && PassesFilter(cfg, f.name) && !TooLargeOrBinary(host, f.path)
      then [IncludedOf(host, f)] + later
      else later
  }

  /** The `k`-th file of `fs` gets in: its path is neither marked in `seen` nor
      the path of an earlier file, and it passes the filter, the binary test and
      the size ceiling. */
  ghost predicate FirstEligible(cfg: State, host: Host, fs: seq<Entry>, seen: set<string>, k: int)
    requires 0 <= k < |fs| && forall i :: 0 <= i < |fs| ==> fs[i].File?
  {
    && RelativePath(host, fs[k]) !in seen
    && (forall j :: 0 <= j < k ==> RelativePath(host, fs[j]) != RelativePath(host, fs[k]))
    && PassesFilter(cfg, fs[k].name)
    && !TooLargeOrBinary(host, fs[k].path)
  }

  // ---------------------------------------------------------------------------
  // The reference

  /** The reference holds exactly the files that get in. */
  lemma {:induction false} ExpectedMembers(cfg: State, host: Host, fs: seq<Entry>, seen: set<string>, inc: Included)
    requires forall i :: 0 <= i < |fs| ==> fs[i].File?
    ensures inc in Expected(cfg, host, fs, seen) <==>
      exists k :: 0 <= k < |fs| && FirstEligible(cfg, host, fs, seen, k) && inc == IncludedOf(host, fs[k])
  {
    if fs != [] {
      var p := RelativePath(host, fs[0]);
      var tail := fs[1..];
      var seen' := seen + {p};
      ExpectedMembers(cfg, host, tail, seen', inc);
      forall k | 1 <= k < |fs|
        ensures FirstEligible(cfg, host, fs, seen, k) <==> FirstEligible(cfg, host, tail, seen', k - 1)
      {
        assert tail[k - 1] == fs[k];
        assert forall j :: 1 <= j < k ==> tail[j - 1] == fs[j];
      }
      if inc in Expected(cfg, host, fs, seen) {
        if inc !in Expected(cfg, host, tail, seen') {
          assert FirstEligible(cfg, host, fs, seen, 0) && inc == IncludedOf(host, fs[0]);
        } else {
          var k :| 0 <= k < |tail| && FirstEligible(cfg, host, tail, seen', k) && inc == IncludedOf(host, tail[k]);
          assert tail[k] == fs[k + 1];
        }
      }
      if exists k :: 0 <= k < |fs| && FirstEligible(cfg, host, fs, seen, k) && inc == IncludedOf(host, fs[k]) {
        var k :| 0 <= k < |fs| && FirstEligible(cfg, host, fs, seen, k) && inc == IncludedOf(host, fs[k]);
        if k > 0 {
          assert tail[k - 1] == fs[k];
        }
      }
    }
  }

  lemma {:induction false} PathsOfAppend(host: Host, a: seq<Entry>, b: seq<Entry>)
    requires forall i :: 0 <= i < |a| ==> a[i].File?
    requires forall i :: 0 <= i < |b| ==> b[i].File?
    ensures PathsOf(host, a + b) == PathsOf(host, a) + PathsOf(host, b)
  {
    if a != [] {
      assert (a + b)[1..] == a[1..] + b;
      PathsOfAppend(host, a[1..], b);
    } else {
      assert a + b == b;
    }
  }

  /** The reference of two lists one after the other: the second starts with the
      paths of the first marked. */
  lemma {:induction false} ExpectedAppend(cfg: State, host: Host, a: seq<Entry>, b: seq<Entry>, seen: set<string>)
    requires forall i :: 0 <= i < |a| ==> a[i].File?
    requires forall i :: 0 <= i < |b| ==> b[i].File?
    ensures Expected(cfg, host, a + b, seen) == Expected(cfg, host, a, seen) + Expected(cfg, host, b, seen + PathsOf(host, a))
  {
    if a == [] {
      assert a + b == b;
      assert PathsOf(host, a) == {};
      assert seen + PathsOf(host, a) == seen;
    } else {
      var p := RelativePath(host, a[0]);
      assert (a + b)[0] == a[0] && (a + b)[1..] == a[1..] + b;
      ExpectedAppend(cfg, host, a[1..], b, seen + {p});
      assert PathsOf(host, a) == {p} + PathsOf(host, a[1..]);
      assert seen + {p} + PathsOf(host, a[1..]) == seen + PathsOf(host, a);
    }
  }

  /** The reference does not depend on the budget setting. */
  lemma {:induction false} ExpectedIgnoresBudget(cfg: State, host: Host, fs: seq<Entry>, seen: set<string>)
    requires forall i :: 0 <= i < |fs| ==> fs[i].File?
    ensures Expected(cfg, host, fs, seen) == Expected(Unbounded(cfg), host, fs, seen)
  {
    if fs != [] {
      ExpectedIgnoresBudget(cfg, host, fs[1..], seen + {RelativePath(host, fs[0])});
    }
  }

  // ---------------------------------------------------------------------------
  // The traversal follows the reference

  /** Unless the budget stops it, an entry embeds what the reference gives for
      its files and marks their paths; in any case it embeds a prefix of that. */
  lemma {:induction false} ProcessEntryFollowsOrder(cfg: State, host: Host, e: Entry, r: Run)
    requires Consistent(cfg, r)
    ensures var r' := ProcessEntry(cfg, host, e, r).0;
      var expected := r.included + Expected(cfg, host, Flatten(e), r.copied);
      && r'.included <= expected
      && (!r'.limitReached ==> r'.included == expected && r'.copied == r.copied + PathsOf(host, Flatten(e)))
    decreases e, 1
  {
    match e
    case File(_, _) =>
      assert [e][1..] == [];
    case Directory(_, children) =>
      ProcessChildrenFollowsOrder(cfg, host, children, r);
  }

  /** The step of the traversal lemmas below: a first part that follows the
      reference, then a second part that follows it from where the first left
      off (or did nothing, once the limit was reached). */
  lemma FollowsOrderStep(r: Run, r1: Run, r2: Run, e1: seq<Included>, e2: seq<Included>, e2From1: seq<Included>,
                         p1: set<string>, p2: set<string>)
    requires r1.included <= r.included + e1
    requires !r1.limitReached ==> r1.included == r.included + e1 && r1.copied == r.copied + p1 && e2From1 == e2
    requires r1.limitReached ==> r2 == r1
    requires r2.included <= r1.included + e2From1
    requires !r2.limitReached ==> r2.included == r1.included + e2From1 && r2.copied == r1.copied + p2
    ensures r2.included <= r.included + (e1 + e2)
    ensures !r2.limitReached ==> r2.included == r.included + (e1 + e2) && r2.copied == r.copied + (p1 + p2)
  {
    assert r.included + (e1 + e2) == (r.included + e1) + e2;
  }

  lemma {:induction false} ProcessChildrenFollowsOrder(cfg: State, host: Host, cs: seq<Entry>, r: Run)
    requires Consistent(cfg, r)
    ensures var r' := ProcessChildren(cfg, host, cs, r).0;
      var expected := r.included + Expected(cfg, host, FlattenSeq(cs), r.copied);
      && r'.included <= expected
      && (!r'.limitReached ==> r'.included == expected && r'.copied == r.copied + PathsOf(host, FlattenSeq(cs)))
    decreases cs, 0
  {
    if cs != [] && !OverBudget(cfg, r) {
      var r1 := ProcessEntry(cfg, host, cs[0], r).0;
      var r2 := ProcessChildren(cfg, host, cs[1..], r1).0;
      var first, rest := Flatten(cs[0]), FlattenSeq(cs[1..]);
      ProcessEntryFollowsOrder(cfg, host, cs[0], r);
      ProcessEntryConsistent(cfg, host, cs[0], r);
      ProcessChildrenFollowsOrder(cfg, host, cs[1..], r1);
      if r1.limitReached {
        NoProgressOnceLimited(cfg, host, cs[1..], [], r1, NoStats);
      }
      FollowsOrderStep(r, r1, r2, Expected(cfg, host, first, r.copied),
                       Expected(cfg, host, rest, r.copied + PathsOf(host, first)), Expected(cfg, host, rest, r1.copied),
                       PathsOf(host, first), PathsOf(host, rest));
      ExpectedAppend(cfg, host, first, rest, r.copied);
      PathsOfAppend(host, first, rest);
    }
  }

  lemma {:induction false} ProcessSelectionFollowsOrder(cfg: State, host: Host, es: seq<Entry>, r: Run, st: Stats)
    requires Consistent(cfg, r)
    ensures var r' := ProcessSelection(cfg, host, es, r, st).0;
      var expected := r.included + Expected(cfg, host, FlattenSeq(es), r.copied);
      && r'.included <= expected
      && (!r'.limitReached ==> r'.included == expected && r'.copied == r.copied + PathsOf(host, FlattenSeq(es)))
    decreases es
  {
    if es != [] && !OverBudget(cfg, r) {
      var (r1, c) := ProcessEntry(cfg, host, es[0], r);
      var st1 := AddStats(st, StatsOf(c));
      var r2 := ProcessSelection(cfg, host, es[1..], r1, st1).0;
      var first, rest := Flatten(es[0]), FlattenSeq(es[1..]);
      ProcessEntryFollowsOrder(cfg, host, es[0], r);
      ProcessEntryConsistent(cfg, host, es[0], r);
      ProcessSelectionFollowsOrder(cfg, host, es[1..], r1, st1);
      if r1.limitReached {
        NoProgressOnceLimited(cfg, host, [], es[1..], r1, st1);
      }
      FollowsOrderStep(r, r1, r2, Expected(cfg, host, first, r.copied),
                       Expected(cfg, host, rest, r.copied + PathsOf(host, first)), Expected(cfg, host, rest, r1.copied),
                       PathsOf(host, first), PathsOf(host, rest));
      ExpectedAppend(cfg, host, first, rest, r.copied);
      PathsOfAppend(host, first, rest);
    }
  }

  // ---------------------------------------------------------------------------
  // The whole copy

  /** Without a budget, a copy embeds the reference list of its selection; with
      one, a prefix of that list, and the whole list when the limit is not
      reached. */
  lemma TraversalTheorem(cfg: State, host: Host, files: seq<Entry>)
    ensures var all := FinalRun(Unbounded(cfg), host, files).0.included;
      var r := FinalRun(cfg, host, files).0;
      && all == Expected(cfg, host, FlattenSeq(files), {})
      && r.included <= all
      && (!r.limitReached ==> r.included == all)
  {
    var r0 := InitialRun(cfg);
    assert InitialRun(Unbounded(cfg)) == r0;
    InitialConsistent(cfg);
    InitialConsistent(Unbounded(cfg));
    ProcessSelectionFollowsOrder(cfg, host, files, r0, NoStats);
    ProcessSelectionFollowsOrder(Unbounded(cfg), host, files, r0, NoStats);
    NoBudgetNoLimit(Unbounded(cfg), host, files);
    ExpectedIgnoresBudget(cfg, host, FlattenSeq(files), {});
  }

  /** A copy the limit did not stop embeds a file exactly when the file is, in
      traversal order, the first with its path and passes the filter, the binary
      test and the size ceiling. */
  lemma CopyEmbedsFirstEligible(cfg: State, host: Host, files: seq<Entry>, inc: Included)
    ensures var fs := FlattenSeq(files);
      var r := FinalRun(cfg, host, files).0;
      !r.limitReached ==>
        (inc in r.included <==>
         exists k :: 0 <= k < |fs| && FirstEligible(cfg, host, fs, {}, k) && inc == IncludedOf(host, fs[k]))
  {
    TraversalTheorem(cfg, host, files);
    ExpectedMembers(cfg, host, FlattenSeq(files), {}, inc);
  }

  /** The first position of `f` in `fs`. */
  lemma {:induction false} FirstIndexOf(fs: seq<Entry>, f: Entry) returns (k: nat)
    requires f in fs
    ensures k < |fs| && fs[k] == f
    ensures forall j :: 0 <= j < k ==> fs[j] != f
  {
    if fs[0] == f {
      k := 0;
    } else {
      assert f in fs[1..];
      var k' := FirstIndexOf(fs[1..], f);
      k := k' + 1;
      assert forall j :: 1 <= j < k ==> fs[j] == fs[1..][j - 1];
    }
  }

  /** A selected file that passes the checks and shares its path with no other
      selected file gets in, at its first position in traversal order. */
  lemma UniquePathEligible(cfg: State, host: Host, files: seq<Entry>, f: Entry) returns (k: nat)
    requires f in FilesInSeq(files)
    requires PassesFilter(cfg, f.name) && !TooLargeOrBinary(host, f.path)
    requires forall g :: g in FilesInSeq(files) && RelativePath(host, g) == RelativePath(host, f) ==> g == f
    ensures k < |FlattenSeq(files)| && FlattenSeq(files)[k] == f
    ensures FirstEligible(cfg, host, FlattenSeq(files), {}, k)
  {
    var fs := FlattenSeq(files);
    k := FirstIndexOf(fs, f);
    forall j | 0 <= j < k ensures RelativePath(host, fs[j]) != RelativePath(host, fs[k]) {
      assert fs[j] in FilesInSeq(files);
    }
  }

  /** Completeness: when the limit is not reached, a selected file that passes
      the filter, the binary test and the size ceiling, and shares its path with
      no other selected file, is embedded with its text. */
  lemma Completeness(cfg: State, host: Host, files: seq<Entry>, f: Entry)
    requires f in FilesInSeq(files)
    requires PassesFilter(cfg, f.name) && !TooLargeOrBinary(host, f.path)
    requires forall g :: g in FilesInSeq(files) && RelativePath(host, g) == RelativePath(host, f) ==> g == f
    ensures !FinalRun(cfg, host, files).0.limitReached ==> IncludedOf(host, f) in FinalRun(cfg, host, files).0.included
  {
    var k := UniquePathEligible(cfg, host, files, f);
    CopyEmbedsFirstEligible(cfg, host, files, IncludedOf(host, f));
  }
}
