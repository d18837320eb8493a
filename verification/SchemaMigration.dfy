/** The PostgreSQL migrations that every start replays on a table's columns: add and drop columns,
    then rename the old names, each statement skipped when it fails. */
module SchemaMigration {
  datatype Alter<C> = Add(column: C) | Drop(column: C)

  datatype Rename<C> = Rename(former: C, renamed: C)

  /** ADD COLUMN IF NOT EXISTS and DROP COLUMN IF EXISTS. */
  function AlterOne<C(==)>(columns: set<C>, alter: Alter<C>): set<C> {
    if alter.Add? then columns + {alter.column} else columns - {alter.column}
  }

  /** RENAME COLUMN fails, and is skipped, when the old name is gone or the new one taken. */
  function RenameOne<C(==)>(columns: set<C>, r: Rename<C>): set<C> {
    if r.former in columns && r.renamed !in columns then columns - {r.former} + {r.renamed} else columns
  }

  function Altered<C(==)>(columns: set<C>, alters: seq<Alter<C>>): set<C> {
    if alters == [] then columns else AlterOne(Altered(columns, alters[..|alters| - 1]), alters[|alters| - 1])
  }

  function Renamed<C(==)>(columns: set<C>, renames: seq<Rename<C>>): set<C> {
    if renames == [] then columns else RenameOne(Renamed(columns, renames[..|renames| - 1]), renames[|renames| - 1])
  }

  function Start<C(==)>(columns: set<C>, alters: seq<Alter<C>>, renames: seq<Rename<C>>): set<C> {
    Renamed(Altered(columns, alters), renames)
  }

  // ---- How the shipped lists are ordered ----

  predicate Chained<C(==)>(first: Rename<C>, second: Rename<C>) {
    first.renamed == second.former
  }

  /** Each name is renamed by one entry, after everything that produces it. */
  ghost predicate SourcesOnce<C>(renames: seq<Rename<C>>) {
    && (forall i, j | 0 <= i <= j < |renames| :: !Chained(renames[j], renames[i]))
    && (forall i, j | 0 <= i < j < |renames| :: renames[i].former != renames[j].former)
  }

  /** Chains have two links; the name in the middle comes from one entry, and the last name is not
      produced before its turn. */
  ghost predicate ShortChains<C>(renames: seq<Rename<C>>) {
    forall i, j | 0 <= i < |renames| && 0 <= j < |renames| && Chained(renames[i], renames[j]) ::
      && (forall k | 0 <= k < |renames| :: !Chained(renames[j], renames[k]) && !Chained(renames[k], renames[i]))
      && (forall k | 0 <= k < |renames| && k != i :: renames[k].renamed != renames[i].renamed)
      && (forall k | 0 <= k < j :: renames[k].renamed != renames[j].renamed)
  }

  ghost predicate OrderlyRenames<C>(renames: seq<Rename<C>>) {
    SourcesOnce(renames) && ShortChains(renames)
  }

  /** No column is both added and dropped, none that is added is renamed away, and none that is
      dropped is brought back by a rename. */
  ghost predicate OrderlyAlters<C>(alters: seq<Alter<C>>, renames: seq<Rename<C>>) {
    && (forall i, j | 0 <= i < |alters| && 0 <= j < |alters| && alters[i].Add? && alters[j].Drop? ::
          alters[i].column != alters[j].column)
    && (forall i, k | 0 <= i < |alters| && 0 <= k < |renames| ::
          alters[i].column != if alters[i].Add? then renames[k].former else renames[k].renamed)
  }

  /** A chain `a -> b -> c` with both `a` and `b` live and `c` free. */
  predicate Stalled<C(==)>(columns: set<C>, first: Rename<C>, second: Rename<C>) {
    && Chained(first, second)
    && first.former in columns && first.renamed in columns && second.renamed !in columns
  }

  ghost predicate HasStalledChain<C>(columns: set<C>, renames: seq<Rename<C>>) {
    exists i, j :: 0 <= i < |renames| && 0 <= j < |renames| && Stalled(columns, renames[i], renames[j])
  }

  // ---- One column followed through the renames ----

  lemma {:induction false} StaysUnlessRenamed<C>(columns: set<C>, renames: seq<Rename<C>>, from: nat, until: nat, c: C)
    requires from <= until <= |renames| && forall k | from <= k < until :: renames[k].former != c
    requires c in Renamed(columns, renames[..from])
    ensures c in Renamed(columns, renames[..until])
    decreases until
  {
    if from < until {
      assert renames[..until][..until - 1] == renames[..until - 1];
      StaysUnlessRenamed(columns, renames, from, until - 1, c);
    }
  }

  lemma {:induction false} AbsentUnlessMade<C>(columns: set<C>, renames: seq<Rename<C>>, from: nat, until: nat, c: C)
    requires from <= until <= |renames| && forall k | from <= k < until :: renames[k].renamed != c
    requires c !in Renamed(columns, renames[..from])
    ensures c !in Renamed(columns, renames[..until])
    decreases until
  {
    if from < until {
      assert renames[..until][..until - 1] == renames[..until - 1];
      AbsentUnlessMade(columns, renames, from, until - 1, c);
    }
  }

  /** A column that disappears was renamed by an entry that found its new name free. */
  lemma {:induction false} GoneByRename<C>(columns: set<C>, renames: seq<Rename<C>>, from: nat, until: nat, c: C)
    returns (j: nat)
    requires from <= until <= |renames|
    requires c in Renamed(columns, renames[..from]) && c !in Renamed(columns, renames[..until])
    ensures from <= j < until && renames[j].former == c && renames[j].renamed !in Renamed(columns, renames[..j])
    decreases until
  {
    assert renames[..until][..until - 1] == renames[..until - 1];
    if c !in Renamed(columns, renames[..until - 1]) {
      j := GoneByRename(columns, renames, from, until - 1, c);
    } else {
      j := until - 1;
    }
  }

  lemma RenameStep<C>(columns: set<C>, renames: seq<Rename<C>>, i: nat)
    requires i < |renames|
    ensures Renamed(columns, renames[..i + 1]) == RenameOne(Renamed(columns, renames[..i]), renames[i])
    ensures Renamed(columns, renames[..0]) == columns
    ensures Renamed(columns, renames[..|renames|]) == Renamed(columns, renames)
  {
    assert renames[..i + 1][..i] == renames[..i];
    assert renames[..|renames|] == renames;
  }

  // ---- A second pass of the renames ----

  predicate Enabled<C(==)>(columns: set<C>, r: Rename<C>) {
    r.former in columns && r.renamed !in columns
  }

  /** After a pass, an entry can still fire only as the first link of a stalled chain. */
  lemma EnabledMeansStalled<C>(columns: set<C>, renames: seq<Rename<C>>, i: nat)
    requires OrderlyRenames(renames) && i < |renames| && Enabled(Renamed(columns, renames), renames[i])
    ensures HasStalledChain(columns, renames)
  {
    var r, n := renames[i], |renames|;
    RenameStep(columns, renames, i);
    if r.former !in Renamed(columns, renames[..i + 1]) {
      AbsentUnlessMade(columns, renames, i + 1, n, r.former);
      assert false;
    }
    assert r.renamed in Renamed(columns, renames[..i]);
    var j := GoneByRename(columns, renames, i, n, r.renamed);
    assert Chained(r, renames[j]);
    StalledAtStart(columns, renames, i, j);
  }

  lemma StalledAtStart<C>(columns: set<C>, renames: seq<Rename<C>>, i: nat, j: nat)
    requires OrderlyRenames(renames) && i < |renames| && j < |renames| && Chained(renames[i], renames[j])
    requires renames[i].former in Renamed(columns, renames[..i]) && renames[i].renamed in Renamed(columns, renames[..i])
    requires renames[j].renamed !in Renamed(columns, renames[..j])
    ensures Stalled(columns, renames[i], renames[j])
  {
    var r, s := renames[i], renames[j];
    RenameStep(columns, renames, i);
    if r.former !in columns {
      assert forall k | 0 <= k < i :: !Chained(renames[k], r);
      AbsentUnlessMade(columns, renames, 0, i, r.former);
    }
    if r.renamed !in columns {
      AbsentUnlessMade(columns, renames, 0, i, r.renamed);
    }
    if s.renamed in columns {
      assert forall k | 0 <= k < j :: !Chained(s, renames[k]);
      StaysUnlessRenamed(columns, renames, 0, j, s.renamed);
    }
  }

  /** And such a chain is stalled indeed: its first entry is skipped, its second frees the name. */
  lemma StalledMeansEnabled<C>(columns: set<C>, renames: seq<Rename<C>>, i: nat, j: nat)
    requires OrderlyRenames(renames) && i < |renames| && j < |renames| && Stalled(columns, renames[i], renames[j])
    ensures Enabled(Renamed(columns, renames), renames[i])
  {
    var r, s, n := renames[i], renames[j], |renames|;
    assert i < j;
    RenameStep(columns, renames, i);
    RenameStep(columns, renames, j);
    StaysUnlessRenamed(columns, renames, 0, i, r.former);
    StaysUnlessRenamed(columns, renames, 0, j, r.renamed);
    StaysUnlessRenamed(columns, renames, 0, i, r.renamed);
    StaysUnlessRenamed(columns, renames, i + 1, n, r.former);
    AbsentUnlessMade(columns, renames, 0, j, s.renamed);
    AbsentUnlessMade(columns, renames, j + 1, n, r.renamed);
  }

  /** A pass changes the columns exactly when some entry can fire at its start. */
  lemma PassMovesIfEnabled<C>(columns: set<C>, renames: seq<Rename<C>>, i: nat)
    requires OrderlyRenames(renames) && i < |renames| && Enabled(columns, renames[i])
    requires forall k | 0 <= k < |renames| && k != i :: renames[k].renamed != renames[i].renamed
    ensures renames[i].former !in Renamed(columns, renames)
  {
    RenameStep(columns, renames, i);
    StaysUnlessRenamed(columns, renames, 0, i, renames[i].former);
    AbsentUnlessMade(columns, renames, 0, i, renames[i].renamed);
    AbsentUnlessMade(columns, renames, i + 1, |renames|, renames[i].former);
  }

  lemma {:induction false} PassRestsIfDisabled<C>(columns: set<C>, renames: seq<Rename<C>>)
    requires forall r | r in renames :: !Enabled(columns, r)
    ensures Renamed(columns, renames) == columns
  {
    if renames != [] {
      var n := |renames| - 1;
      assert renames[n] in renames && forall r | r in renames[..n] :: r in renames;
      PassRestsIfDisabled(columns, renames[..n]);
    }
  }

  /** The replayed renames change nothing the second time exactly when no chain was stalled. */
  lemma SecondPassExact<C>(columns: set<C>, renames: seq<Rename<C>>)
    requires OrderlyRenames(renames)
    ensures var once := Renamed(columns, renames);
            Renamed(once, renames) == once <==> !HasStalledChain(columns, renames)
  {
    var once := Renamed(columns, renames);
    if HasStalledChain(columns, renames) {
      var i, j :| 0 <= i < |renames| && 0 <= j < |renames| && Stalled(columns, renames[i], renames[j]);
      StalledMeansEnabled(columns, renames, i, j);
      PassMovesIfEnabled(once, renames, i);
    } else {
      forall r | r in renames ensures !Enabled(once, r) {
        var i :| 0 <= i < |renames| && renames[i] == r;
        if Enabled(once, r) {
          EnabledMeansStalled(columns, renames, i);
        }
      }
      PassRestsIfDisabled(once, renames);
    }
  }

  /** A pass leaves no chain stalled. */
  lemma PassUnstalls<C>(columns: set<C>, renames: seq<Rename<C>>)
    requires OrderlyRenames(renames)
    ensures !HasStalledChain(Renamed(columns, renames), renames)
  {
    var once := Renamed(columns, renames);
    if HasStalledChain(once, renames) {
      var i, j :| 0 <= i < |renames| && 0 <= j < |renames| && Stalled(once, renames[i], renames[j]);
      LastLinkDone(columns, renames, i, j);
    }
  }

  /** The last link of a chain, once passed, is done: its old name is gone or its new one is taken. */
  lemma LastLinkDone<C>(columns: set<C>, renames: seq<Rename<C>>, i: nat, j: nat)
    requires OrderlyRenames(renames) && i < |renames| && j < |renames| && Chained(renames[i], renames[j])
    ensures !Enabled(Renamed(columns, renames), renames[j])
  {
    var s, n := renames[j], |renames|;
    RenameStep(columns, renames, j);
    if s.former in Renamed(columns, renames[..j + 1]) {
      assert s.renamed in Renamed(columns, renames[..j]);
      assert forall k | j <= k < n :: !Chained(s, renames[k]);
      StaysUnlessRenamed(columns, renames, j, n, s.renamed);
    } else {
      assert forall k | j < k < n :: !Chained(renames[k], s);
      AbsentUnlessMade(columns, renames, j + 1, n, s.former);
    }
  }

  // ---- Whole starts ----

  /** What the added and dropped columns come to, whatever their order. */
  lemma {:induction false} AlteredMeans<C>(columns: set<C>, alters: seq<Alter<C>>, c: C)
    requires forall i, j | 0 <= i < |alters| && 0 <= j < |alters| && alters[i].Add? && alters[j].Drop? ::
               alters[i].column != alters[j].column
    ensures c in Altered(columns, alters) <==> Add(c) in alters || (c in columns && Drop(c) !in alters)
  {
    if alters != [] {
      var n := |alters| - 1;
      AlteredMeans(columns, alters[..n], c);
      assert alters == alters[..n] + [alters[n]];
    }
  }

  /** A started table already has the added columns and none of the dropped ones. */
  lemma AltersRest<C>(columns: set<C>, alters: seq<Alter<C>>, renames: seq<Rename<C>>)
    requires OrderlyAlters(alters, renames)
    ensures var once := Start(columns, alters, renames); Altered(once, alters) == once
  {
    var once, base, n := Start(columns, alters, renames), Altered(columns, alters), |renames|;
    assert renames[..0] == [] && renames[..n] == renames;
    forall c | c in Altered(once, alters) + once ensures c in Altered(once, alters) && c in once {
      AlteredMeans(columns, alters, c);
      AlteredMeans(once, alters, c);
      if Add(c) in alters {
        var i :| 0 <= i < |alters| && alters[i] == Add(c);
        StaysUnlessRenamed(base, renames, 0, n, c);
      }
      if Drop(c) in alters {
        var i :| 0 <= i < |alters| && alters[i] == Drop(c);
        AbsentUnlessMade(base, renames, 0, n, c);
      }
    }
  }

  /** Replayability: a second start leaves the columns as the first left them exactly when, after the
      added and dropped columns, no rename chain starts with two live names and ends in a free one. */
  lemma SecondStartExact<C>(columns: set<C>, alters: seq<Alter<C>>, renames: seq<Rename<C>>)
    requires OrderlyRenames(renames) && OrderlyAlters(alters, renames)
    ensures var once := Start(columns, alters, renames);
            Start(once, alters, renames) == once <==> !HasStalledChain(Altered(columns, alters), renames)
  {
    AltersRest(columns, alters, renames);
    SecondPassExact(Altered(columns, alters), renames);
  }

  function Starts<C(==)>(n: nat, columns: set<C>, alters: seq<Alter<C>>, renames: seq<Rename<C>>): set<C> {
    if n == 0 then columns else Start(Starts(n - 1, columns, alters, renames), alters, renames)
  }

  /** Two starts settle any table for good. */
  lemma {:induction false} TwoStartsSettle<C>(columns: set<C>, alters: seq<Alter<C>>, renames: seq<Rename<C>>, n: nat)
    requires OrderlyRenames(renames) && OrderlyAlters(alters, renames) && n >= 2
    ensures Starts(n, columns, alters, renames) == Starts(2, columns, alters, renames)
  {
    if n > 2 {
      TwoStartsSettle(columns, alters, renames, n - 1);
      assert Starts(1, columns, alters, renames) == Start(Starts(0, columns, alters, renames), alters, renames);
      ThirdStartRests(columns, alters, renames);
    }
  }

  /** The third start of a table changes nothing. */
  lemma ThirdStartRests<C>(columns: set<C>, alters: seq<Alter<C>>, renames: seq<Rename<C>>)
    requires OrderlyRenames(renames) && OrderlyAlters(alters, renames)
    ensures var twice := Start(Start(columns, alters, renames), alters, renames);
            Start(twice, alters, renames) == twice
  {
    AltersRest(columns, alters, renames);
    PassUnstalls(Altered(columns, alters), renames);
    SecondStartExact(Start(columns, alters, renames), alters, renames);
  }

  ghost predicate Unchained<C>(renames: seq<Rename<C>>) {
    forall i, j | 0 <= i < |renames| && 0 <= j < |renames| :: !Chained(renames[i], renames[j])
  }

  /** A table without rename chains replays unconditionally. */
  lemma UnchainedReplays<C>(columns: set<C>, alters: seq<Alter<C>>, renames: seq<Rename<C>>)
    requires OrderlyRenames(renames) && OrderlyAlters(alters, renames) && Unchained(renames)
    ensures var once := Start(columns, alters, renames); Start(once, alters, renames) == once
  {
    SecondStartExact(columns, alters, renames);
  }
}
