/** Making two tables fit for a unique index (db/session.py): duplicate patch reviews are
    renamed, duplicate usage rows are deleted.
 */
module Reclassification {
  import opened Entities
  import opened Rows
  import opened SettlementLaws
  import opened FreshNames

  /** A patch review; the listing is ordered by artifact, kind, creation time and id. */
  datatype Review = Review(id: string, artifact: string, kind: string, createdAt: Time)

  predicate SamePair(a: Review, b: Review) {
    a.artifact == b.artifact && a.kind == b.kind
  }

  /** ROW_NUMBER() over the pair is one: no earlier row of the listing has the same pair. */
  predicate IsFirst(rows: seq<Review>, k: nat)
    requires k < |rows|
  {
    forall j :: 0 <= j < k ==> !SamePair(rows[j], rows[k])
  }

  function LegacyKind(row: Review): string {
    "legacy_duplicate:" + row.kind + ":" + row.id
  }

  /** `reviewer_kinds_by_artifact` before the renaming starts. */
  function KindsOf(rows: seq<Review>, artifact: string): set<string> {
    set k | 0 <= k < |rows| && rows[k].artifact == artifact :: rows[k].kind
  }

  /** The kinds in use for an artifact when the first rows have their new kinds. */
  function Taken(rows: seq<Review>, kinds: seq<string>, artifact: string): set<string>
    requires |kinds| <= |rows|
  {
    KindsOf(rows, artifact) + (set k | 0 <= k < |kinds| && rows[k].artifact == artifact :: kinds[k])
  }

  /** The new kinds of the first `n` rows. */
  function NewKinds(rows: seq<Review>, n: nat): (kinds: seq<string>)
    requires n <= |rows|
    ensures |kinds| == n
  {
    if n == 0 then []
    else
      var kinds, row := NewKinds(rows, n - 1), rows[n - 1];
      kinds + [if IsFirst(rows, n - 1) then row.kind
               else FreshName(LegacyKind(row), ":", Taken(rows, kinds, row.artifact))]
  }

  lemma {:induction false} NewKindsPrefix(rows: seq<Review>, m: nat, n: nat)
    requires m <= n <= |rows|
    ensures NewKinds(rows, n)[..m] == NewKinds(rows, m)
    decreases n
  {
    hide FreshName, Taken, IsFirst, LegacyKind;
    if m < n {
      NewKindsPrefix(rows, m, n - 1);
      var last := NewKinds(rows, n)[n - 1];
      TakeOfAppend(NewKinds(rows, n - 1), last, m);
    } else {
      TakeAll(NewKinds(rows, n));
    }
  }

  function Reclassified(rows: seq<Review>): (after: seq<Review>)
    ensures |after| == |rows|
  {
    seq(|rows|, k requires 0 <= k < |rows| => rows[k].(kind := NewKinds(rows, |rows|)[k]))
  }

  lemma NewKindOf(rows: seq<Review>, k: nat)
    requires k < |rows|
    ensures Reclassified(rows)[k].kind == if IsFirst(rows, k) then rows[k].kind
      else FreshName(LegacyKind(rows[k]), ":", Taken(rows, NewKinds(rows, k), rows[k].artifact))
  {
    NewKindsPrefix(rows, k + 1, |rows|);
    assert NewKinds(rows, |rows|)[k] == NewKinds(rows, |rows|)[..k + 1][k];
  }

  lemma EarlierKindIsTaken(rows: seq<Review>, j: nat, k: nat)
    requires j < k < |rows| && rows[j].artifact == rows[k].artifact
    ensures Reclassified(rows)[j].kind in Taken(rows, NewKinds(rows, k), rows[k].artifact)
  {
    NewKindsPrefix(rows, k, |rows|);
    assert NewKinds(rows, |rows|)[j] == NewKinds(rows, |rows|)[..k][j];
  }

  /** After the renaming all pairs of artifact and kind are distinct, so the unique index can
      be created. */
  lemma PairsAreDistinct(rows: seq<Review>, j: nat, k: nat)
    requires j < k < |rows|
    ensures !SamePair(Reclassified(rows)[j], Reclassified(rows)[k])
  {
    if rows[j].artifact == rows[k].artifact {
      NewKindOf(rows, j);
      NewKindOf(rows, k);
      EarlierKindIsTaken(rows, j, k);
      assert rows[k].kind in KindsOf(rows, rows[k].artifact);
      assert IsFirst(rows, j) && IsFirst(rows, k) ==> !SamePair(rows[j], rows[k]);
    }
  }

  ghost predicate ListingOrder(rows: seq<Review>) {
    forall i, j :: 0 <= i < j < |rows| && SamePair(rows[i], rows[j]) ==> rows[i].createdAt <= rows[j].createdAt
  }

  /** No row is lost, moved or given to another artifact; each pair keeps its earliest row as
      it was; and every other row carries its old kind and its id in its new kind. */
  lemma RowsAreKept(rows: seq<Review>, k: nat)
    requires ListingOrder(rows) && k < |rows|
    ensures Reclassified(rows)[k] == rows[k].(kind := Reclassified(rows)[k].kind)
    ensures IsFirst(rows, k) ==> Reclassified(rows)[k] == rows[k]
    ensures IsFirst(rows, k) ==>
      forall j :: 0 <= j < |rows| && SamePair(rows[j], rows[k]) ==> rows[k].createdAt <= rows[j].createdAt
    ensures !IsFirst(rows, k) ==>
      (|| Reclassified(rows)[k].kind == LegacyKind(rows[k])
       || exists n :: n >= 2 && Reclassified(rows)[k].kind == Numbered(LegacyKind(rows[k]), ":", n))
  {
    NewKindOf(rows, k);
    if !IsFirst(rows, k) {
      var taken := Taken(rows, NewKinds(rows, k), rows[k].artifact);
      if LegacyKind(rows[k]) in taken {
        assert FirstFree(LegacyKind(rows[k]), ":", taken, 2, 2) >= 2;
      }
    } else {
      forall j | 0 <= j < |rows| && SamePair(rows[j], rows[k]) ensures rows[k].createdAt <= rows[j].createdAt {
        assert j >= k;
      }
    }
  }

  /** Every pair that existed still exists, and a table without duplicates is left alone: the
      renaming changes nothing the second time. */
  lemma RenamingIsIdempotent(rows: seq<Review>)
    ensures (forall j, k :: 0 <= j < k < |rows| ==> !SamePair(rows[j], rows[k])) ==> Reclassified(rows) == rows
    ensures Reclassified(Reclassified(rows)) == Reclassified(rows)
  {
    NothingToRename(rows);
    var after := Reclassified(rows);
    forall j, k | 0 <= j < k < |after| ensures !SamePair(after[j], after[k]) {
      PairsAreDistinct(rows, j, k);
    }
    NothingToRename(after);
  }

  lemma NothingToRename(rows: seq<Review>)
    ensures (forall j, k :: 0 <= j < k < |rows| ==> !SamePair(rows[j], rows[k])) ==> Reclassified(rows) == rows
  {
    if forall j, k :: 0 <= j < k < |rows| ==> !SamePair(rows[j], rows[k]) {
      forall k | 0 <= k < |rows| ensures Reclassified(rows)[k] == rows[k] {
        NewKindOf(rows, k);
      }
    }
  }

  // ---- the loops of _reclassify_sqlite_patch_review_duplicates ----

  lemma KindsOneMore(rows: seq<Review>, n: nat, artifact: string)
    requires n < |rows|
    ensures KindsOf(rows[..n + 1], artifact)
         == KindsOf(rows[..n], artifact) + (if rows[n].artifact == artifact then {rows[n].kind} else {})
  {
    var more := rows[..n + 1];
    assert forall k :: 0 <= k < n ==> more[k] == rows[..n][k];
    assert more[n] == rows[n];
    forall kind | kind in KindsOf(rows[..n], artifact) ensures kind in KindsOf(more, artifact) {
      var k :| 0 <= k < n && rows[..n][k].artifact == artifact && rows[..n][k].kind == kind;
      assert more[k].kind == kind;
    }
  }

  /** The dictionary of sets, filled row by row. */
  method ReviewerKindsByArtifact(rows: seq<Review>) returns (kinds: map<string, set<string>>)
    ensures forall artifact :: artifact in kinds <==> exists row <- rows :: row.artifact == artifact
    ensures forall artifact <- kinds :: kinds[artifact] == KindsOf(rows, artifact)
  {
    kinds := map[];
    for n := 0 to |rows|
      invariant forall artifact :: artifact in kinds <==> exists row <- rows[..n] :: row.artifact == artifact
      invariant forall artifact <- kinds :: kinds[artifact] == KindsOf(rows[..n], artifact)
    {
      var row := rows[n];
      forall artifact
        ensures KindsOf(rows[..n + 1], artifact)
             == KindsOf(rows[..n], artifact) + (if row.artifact == artifact then {row.kind} else {})
      {
        KindsOneMore(rows, n, artifact);
      }
      if row.artifact !in kinds {
        NoRowsNoKinds(rows[..n], row.artifact);
      }
      var before := if row.artifact in kinds then kinds[row.artifact] else {};
      kinds := kinds[row.artifact := before + {row.kind}];
      TakeOneMore(rows, n);
    }
    TakeAll(rows);
  }

  lemma NoRowsNoKinds(rows: seq<Review>, artifact: string)
    requires !exists row <- rows :: row.artifact == artifact
    ensures KindsOf(rows, artifact) == {}
  {
  }

  lemma TakenOneMore(rows: seq<Review>, kinds: seq<string>, kind: string, artifact: string)
    requires |kinds| < |rows|
    ensures Taken(rows, kinds + [kind], artifact)
         == Taken(rows, kinds, artifact) + (if rows[|kinds|].artifact == artifact then {kind} else {})
  {
    var more := kinds + [kind];
    assert forall k :: 0 <= k < |kinds| ==> more[k] == kinds[k];
    forall x | x in Taken(rows, kinds, artifact) ensures x in Taken(rows, more, artifact) {
      if x !in KindsOf(rows, artifact) {
        var k :| 0 <= k < |kinds| && rows[k].artifact == artifact && kinds[k] == x;
        assert more[k] == x;
      }
    }
    if rows[|kinds|].artifact == artifact {
      assert more[|kinds|] == kind;
    }
  }

  ghost predicate KindsInUse(inUse: map<string, set<string>>, rows: seq<Review>, kinds: seq<string>)
    requires |kinds| <= |rows|
  {
    forall k :: 0 <= k < |rows| ==>
      rows[k].artifact in inUse && inUse[rows[k].artifact] == Taken(rows, kinds, rows[k].artifact)
  }

  /** An unchanged first row uses a kind that was in use before. */
  lemma FirstTakesNothingNew(rows: seq<Review>, kinds: seq<string>, inUse: map<string, set<string>>)
    requires |kinds| < |rows| && KindsInUse(inUse, rows, kinds)
    ensures KindsInUse(inUse, rows, kinds + [rows[|kinds|].kind])
  {
    forall k | 0 <= k < |rows|
      ensures Taken(rows, kinds + [rows[|kinds|].kind], rows[k].artifact) == Taken(rows, kinds, rows[k].artifact)
    {
      TakenOneMore(rows, kinds, rows[|kinds|].kind, rows[k].artifact);
      if rows[|kinds|].artifact == rows[k].artifact {
        assert rows[|kinds|].kind in KindsOf(rows, rows[k].artifact);
      }
    }
  }

  lemma RenamedTakesItsName(rows: seq<Review>, kinds: seq<string>, inUse: map<string, set<string>>, kind: string)
    requires |kinds| < |rows| && KindsInUse(inUse, rows, kinds)
    ensures var artifact := rows[|kinds|].artifact;
      artifact in inUse && KindsInUse(inUse[artifact := inUse[artifact] + {kind}], rows, kinds + [kind])
  {
    forall k | 0 <= k < |rows| {
      TakenOneMore(rows, kinds, kind, rows[k].artifact);
    }
  }

  /** The table, its rows in the order of the listing. Renaming a row writes its kind. */
  class PatchReviewTable {
    var rows: seq<Review>

    constructor (listing: seq<Review>)
      ensures rows == listing
    {
      rows := listing;
    }

    method ReclassifyDuplicates()
      modifies this
      ensures rows == Reclassified(old(rows))
    {
      hide FreshName, Taken, IsFirst, LegacyKind;
      var listed := rows;
      var inUse := ReviewerKindsByArtifact(listed);
      assert KindsInUse(inUse, listed, []) by {
        NothingRenamedYet(listed, inUse);
      }
      ghost var kinds := [];
      for n := 0 to |listed|
        invariant kinds == NewKinds(listed, n)
        invariant KindsInUse(inUse, listed, kinds)
        invariant |rows| == |listed|
        invariant forall k :: 0 <= k < |rows| ==> rows[k] == if k < n then listed[k].(kind := kinds[k]) else listed[k]
      {
        var row := listed[n];
        if IsFirst(listed, n) {
          FirstTakesNothingNew(listed, kinds, inUse);
          kinds := kinds + [row.kind];
        } else {
          assert row.artifact in inUse && inUse[row.artifact] == Taken(listed, kinds, row.artifact);
          var kind := SearchFreshName(LegacyKind(row), ":", inUse[row.artifact]);
          rows := rows[n := rows[n].(kind := kind)];
          RenamedTakesItsName(listed, kinds, inUse, kind);
          inUse := inUse[row.artifact := inUse[row.artifact] + {kind}];
          kinds := kinds + [kind];
        }
      }
      assert rows == Reclassified(listed);
    }
  }

  lemma NothingRenamedYet(rows: seq<Review>, inUse: map<string, set<string>>)
    requires forall artifact :: artifact in inUse <==> exists row <- rows :: row.artifact == artifact
    requires forall artifact <- inUse :: inUse[artifact] == KindsOf(rows, artifact)
    ensures KindsInUse(inUse, rows, [])
  {
    forall k | 0 <= k < |rows| ensures rows[k].artifact in inUse {
      assert rows[k] in rows;
    }
    forall artifact ensures Taken(rows, [], artifact) == KindsOf(rows, artifact) {
    }
  }

  // ---- the usage ledger ----

  predicate IsFirstUsage(ledger: seq<UsageEntry>, k: nat)
    requires k < |ledger|
  {
    forall j :: 0 <= j < k ==> !(ledger[j].run == ledger[k].run && ledger[j].usageType == ledger[k].usageType)
  }

  /** The delete that keeps the lowest row of each run and usage type, and every row that
      belongs to no run; a row's number is its position. */
  function Deduplicated(ledger: seq<UsageEntry>, n: nat): seq<UsageEntry>
    requires n <= |ledger|
  {
    if n == 0 then []
    else Deduplicated(ledger, n - 1)
         + (if ledger[n - 1].run.None? || IsFirstUsage(ledger, n - 1) then [ledger[n - 1]] else [])
  }

  lemma {:induction false} DeduplicatedMeans(ledger: seq<UsageEntry>, n: nat)
    requires n <= |ledger|
    ensures forall e <- Deduplicated(ledger, n) :: exists j :: 0 <= j < n && ledger[j] == e
    ensures forall j :: 0 <= j < n && (ledger[j].run.None? || IsFirstUsage(ledger, j)) ==>
      ledger[j] in Deduplicated(ledger, n)
    ensures UniqueUsage(Deduplicated(ledger, n))
    decreases n
  {
    if n > 0 {
      DeduplicatedMeans(ledger, n - 1);
      var before, after := Deduplicated(ledger, n - 1), Deduplicated(ledger, n);
      forall i, j | 0 <= i < j < |after| && after[i].run.Some? && after[i].run == after[j].run
        ensures after[i].usageType != after[j].usageType
      {
        assert after[i] == before[i] && before[i] in before;
      }
    }
  }

  lemma {:induction false} SomeUsageIsFirst(ledger: seq<UsageEntry>, k: nat) returns (first: nat)
    requires k < |ledger|
    ensures first <= k && ledger[first].run == ledger[k].run && ledger[first].usageType == ledger[k].usageType
    ensures IsFirstUsage(ledger, first)
    decreases k
  {
    if IsFirstUsage(ledger, k) {
      first := k;
    } else {
      var j :| 0 <= j < k && ledger[j].run == ledger[k].run && ledger[j].usageType == ledger[k].usageType;
      first := SomeUsageIsFirst(ledger, j);
    }
  }

  ghost predicate HasPair(ledger: seq<UsageEntry>, e: UsageEntry) {
    exists kept <- ledger :: kept.run == e.run && kept.usageType == e.usageType
  }

  lemma PairSurvives(ledger: seq<UsageEntry>, k: nat)
    requires k < |ledger|
    ensures HasPair(Deduplicated(ledger, |ledger|), ledger[k])
  {
    hide Deduplicated, IsFirstUsage;
    DeduplicatedMeans(ledger, |ledger|);
    var first := SomeUsageIsFirst(ledger, k);
    assert ledger[first] in Deduplicated(ledger, |ledger|);
  }

  /** After the delete the pair of run and usage type is unique, and no run has lost a type of
      usage: the oldest row of every pair is still there, and so is every row of no run. */
  lemma LedgerIsUnique(ledger: seq<UsageEntry>)
    ensures UniqueUsage(Deduplicated(ledger, |ledger|))
    ensures forall e <- Deduplicated(ledger, |ledger|) :: e in ledger
    ensures forall e <- ledger :: e.run.None? ==> e in Deduplicated(ledger, |ledger|)
    ensures forall e <- ledger :: HasPair(Deduplicated(ledger, |ledger|), e)
    ensures forall k :: 0 <= k < |ledger| && IsFirstUsage(ledger, k) ==> ledger[k] in Deduplicated(ledger, |ledger|)
  {
    hide Deduplicated, HasPair, UniqueUsage, IsFirstUsage;
    DeduplicatedMeans(ledger, |ledger|);
    forall k | 0 <= k < |ledger| ensures HasPair(Deduplicated(ledger, |ledger|), ledger[k]) {
      PairSurvives(ledger, k);
    }
  }

  /** A ledger that is already unique, as settlements keep it, loses nothing. */
  lemma {:induction false} UniqueLedgerIsKept(ledger: seq<UsageEntry>, n: nat)
    requires UniqueUsage(ledger) && n <= |ledger|
    ensures Deduplicated(ledger, n) == ledger[..n]
    decreases n
  {
    if n > 0 {
      UniqueLedgerIsKept(ledger, n - 1);
      assert ledger[n - 1].run.Some? ==> IsFirstUsage(ledger, n - 1);
      TakeOneMore(ledger, n - 1);
    }
  }
}
