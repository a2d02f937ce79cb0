/** The migration reconciler of main.go:108-170: read the applied records and
    the migration files, check that the records are a prefix of the files by
    body, then apply the remaining files one transaction each. */
module Reconciler {
  import opened Store
  import opened LineEndings
  import opened NameOrder
  import opened Options

  /** How a run ends: the report it prints, or the reason it halts through
      `logrus.Fatal`. */
  datatype Outcome =
    | UpToDate                     // main.go:146-149
    | Applied(names: seq<string>)  // main.go:167-170
    | Unreadable(name: string)     // main.go:121-124
    | Removed(name: string)        // main.go:129-131
    | Changed(name: string)        // main.go:136-139
    | InsertFailed                 // main.go:154-157
    | ExecFailed(name: string)     // main.go:158-161
    | CommitFailed                 // main.go:162-164
  {
    predicate Fatal()
    {
      !(UpToDate? || Applied?)
    }
  }

  /** The database state a run leaves behind, and how the run ended. */
  datatype Run = Run(state: Snapshot, outcome: Outcome)

  // ---------------------------------------------------------------------
  // Reading the migration files (main.go:119-126)
  // ---------------------------------------------------------------------

  /** Index of the first listed file the file system cannot read, or |dir|. */
  function FirstUnreadable(dir: seq<string>, fs: map<string, string>, from: nat): (k: nat)
    requires from <= |dir|
    decreases |dir| - from
    ensures from <= k <= |dir|
    ensures forall i :: from <= i < k ==> dir[i] in fs
    ensures k < |dir| ==> dir[k] !in fs
  {
    if from == |dir| || dir[from] !in fs then from
    else FirstUnreadable(dir, fs, from + 1)
  }

  predicate Readable(dir: seq<string>, fs: map<string, string>)
  {
    forall i :: 0 <= i < |dir| ==> dir[i] in fs
  }

  /** The file bodies, in listing order. */
  function Bodies(dir: seq<string>, fs: map<string, string>): seq<string>
    requires Readable(dir, fs)
  {
    seq(|dir|, i requires 0 <= i < |dir| => fs[dir[i]])
  }

  // ---------------------------------------------------------------------
  // Checking the applied records against the files (main.go:128-141)
  // ---------------------------------------------------------------------

  /** Applied record i and file i have the same body up to line endings.
      Names are never compared. */
  predicate Agrees(applied: seq<Migration>, files: seq<string>, i: nat)
    requires i < |applied| && i < |files|
  {
    Normalize(applied[i].body) == Normalize(files[i])
  }

  /** Index of the first applied record, from `from` on, that has no file
      left (removed) or whose body disagrees with its file (changed); |applied|
      when there is none. */
  function FirstDrift(applied: seq<Migration>, files: seq<string>, from: nat): (k: nat)
    requires from <= |applied|
    decreases |applied| - from
    ensures from <= k <= |applied|
    ensures from < k ==> k <= |files|
    ensures forall i :: from <= i < k ==> i < |files| && Agrees(applied, files, i)
    ensures k < |applied| ==> |files| <= k || !Agrees(applied, files, k)
  {
    if from == |applied| then from
    else if |files| <= from || !Agrees(applied, files, from) then from
    else
      assert Agrees(applied, files, from);
      FirstDrift(applied, files, from + 1)
  }

  /** The error the check halts with, if any. */
  function Drift(applied: seq<Migration>, files: seq<string>): (r: Option<Outcome>)
    ensures r.Some? ==> (r.value.Removed? || r.value.Changed?) &&
                        exists i :: 0 <= i < |applied| && r.value.name == applied[i].name
    ensures r.Some? && r.value.Removed? ==> |files| < |applied|
  {
    var k := FirstDrift(applied, files, 0);
    if k == |applied| then None
    else if |files| <= k then Some(Removed(applied[k].name))
    else Some(Changed(applied[k].name))
  }

  /** The check passes exactly when every applied record has a file at its
      index and agrees with it; then there are at least as many files. */
  lemma VerifiedIff(applied: seq<Migration>, files: seq<string>)
    ensures Drift(applied, files).None? <==>
              |applied| <= |files| &&
              forall i :: 0 <= i < |applied| ==> Agrees(applied, files, i)
  {
  }

  /** More records than files, all shared indices agreeing: the check reports
      the record just past the last file as removed. And only then. */
  lemma RemovedIff(applied: seq<Migration>, files: seq<string>, name: string)
    ensures Drift(applied, files) == Some(Removed(name)) <==>
              |files| < |applied| &&
              (forall i :: 0 <= i < |files| ==> Agrees(applied, files, i)) &&
              name == applied[|files|].name
  {
  }

  /** When record i is the first whose body disagrees with its file, the check
      reports record i as changed, whatever the names say. */
  lemma ChangedAtFirstMismatch(applied: seq<Migration>, files: seq<string>, i: nat)
    requires i < |applied| && i < |files|
    requires forall j :: 0 <= j < i ==> Agrees(applied, files, j)
    requires !Agrees(applied, files, i)
    ensures Drift(applied, files) == Some(Changed(applied[i].name))
  {
  }

  /** A "changed" report always names a record that is the first mismatch. */
  lemma ChangedOnlyAtFirstMismatch(applied: seq<Migration>, files: seq<string>, name: string)
    requires Drift(applied, files) == Some(Changed(name))
    ensures exists i :: 0 <= i < |applied| && i < |files| && applied[i].name == name &&
                        !Agrees(applied, files, i) &&
                        forall j :: 0 <= j < i ==> Agrees(applied, files, j)
  {
    var k := FirstDrift(applied, files, 0);
    assert k < |applied| && k < |files| && applied[k].name == name && !Agrees(applied, files, k);
  }

  /** Only bodies take part in the check: two record lists with the same bodies
      stop at the same index (only the reported name can differ). */
  lemma {:induction false} DriftIgnoresNames(a: seq<Migration>, b: seq<Migration>, files: seq<string>, from: nat)
    requires |a| == |b| && from <= |a|
    requires forall i :: 0 <= i < |a| ==> a[i].body == b[i].body
    ensures FirstDrift(a, files, from) == FirstDrift(b, files, from)
    decreases |a| - from
  {
    if from < |a| && from < |files| && Agrees(a, files, from) {
      DriftIgnoresNames(a, b, files, from + 1);
    }
  }

  // ---------------------------------------------------------------------
  // Applying the pending files (main.go:144-165)
  // ---------------------------------------------------------------------

  /** The records written for pending files: each file's name with its body. */
  function Zip(names: seq<string>, bodies: seq<string>): seq<Migration>
    requires |names| == |bodies|
  {
    seq(|names|, i requires 0 <= i < |names| => Migration(names[i], bodies[i]))
  }

  function BodiesOf(rows: seq<Migration>): seq<string>
  {
    seq(|rows|, i requires 0 <= i < |rows| => rows[i].body)
  }

  /** The state after committing `rows`, each with its SQL, in order. */
  function Extend(s: Snapshot, rows: seq<Migration>): Snapshot
  {
    Snapshot(s.records + rows, s.executed + BodiesOf(rows))
  }

  lemma ExtendAppend(s: Snapshot, a: seq<Migration>, b: seq<Migration>)
    ensures Extend(Extend(s, a), b) == Extend(s, a + b)
  {
    assert BodiesOf(a) + BodiesOf(b) == BodiesOf(a + b);
  }

  /** One pending file's transaction against the committed state `s`
      (main.go:153-164): None when it commits, otherwise the failure. The
      record is staged first, so the SQL runs where the record is visible. */
  function Transaction(rejects: (Snapshot, Action) -> bool, s: Snapshot, row: Migration): (r: Option<Outcome>)
    ensures r.Some? ==> r.value == InsertFailed || r.value == ExecFailed(row.name) || r.value == CommitFailed
  {
    if rejects(s, Insert(row)) then Some(InsertFailed)
    else if rejects(Snapshot(s.records + [row], s.executed), Action.Exec(row.body)) then Some(ExecFailed(row.name))
    else if rejects(Extend(s, [row]), Action.Commit) then Some(CommitFailed)
    else None
  }

  /** Pending file `j` is accepted when the files before it have committed. */
  predicate AcceptedAt(rejects: (Snapshot, Action) -> bool, s: Snapshot, pending: seq<Migration>, j: nat)
    requires j < |pending|
  {
    Transaction(rejects, Extend(s, pending[..j]), pending[j]).None?
  }

  /** Where the apply loop stopped: the state, how many files it committed,
      and the failure that stopped it early, if any. */
  datatype Progress = Progress(state: Snapshot, done: nat, failure: Option<Outcome>)

  /** The apply loop of main.go:152-165 over `pending`, starting from `s`.
      Per-file atomicity: the state holds exactly the files before the one
      that failed; that file's transaction is the one that failed. */
  function ApplyAll(rejects: (Snapshot, Action) -> bool, s: Snapshot, pending: seq<Migration>): (p: Progress)
    decreases |pending|
    ensures p.done <= |pending|
    ensures p.state == Extend(s, pending[..p.done])
    ensures p.failure.None? <==> p.done == |pending|
    ensures p.failure.Some? ==> p.failure == Transaction(rejects, p.state, pending[p.done])
    ensures forall j :: 0 <= j < p.done ==> AcceptedAt(rejects, s, pending, j)
  {
    if pending == [] then Progress(s, 0, None)
    else
      var failure := Transaction(rejects, s, pending[0]);
      if failure.Some? then
        assert pending[..0] == [];
        Progress(s, 0, failure)
      else
        var p := ApplyAll(rejects, Extend(s, [pending[0]]), pending[1..]);
        ExtendAppend(s, [pending[0]], pending[1..][..p.done]);
        assert [pending[0]] + pending[1..][..p.done] == pending[..p.done + 1];
        AcceptedPrefixShift(rejects, s, pending, p.done);
        Progress(p.state, p.done + 1, p.failure)
  }

  /** The files accepted after the first one, seen from the state after it,
      are the files accepted from `s` on. */
  lemma AcceptedPrefixShift(rejects: (Snapshot, Action) -> bool, s: Snapshot, pending: seq<Migration>, n: nat)
    requires n < |pending|
    requires Transaction(rejects, s, pending[0]).None?
    requires forall j :: 0 <= j < n ==> AcceptedAt(rejects, Extend(s, [pending[0]]), pending[1..], j)
    ensures forall j :: 0 <= j < n + 1 ==> AcceptedAt(rejects, s, pending, j)
  {
    forall j | 0 <= j < n + 1
      ensures AcceptedAt(rejects, s, pending, j)
    {
      if j == 0 {
        assert pending[..0] == [];
        assert Extend(s, []) == s;
      } else {
        assert AcceptedAt(rejects, Extend(s, [pending[0]]), pending[1..], j - 1);
        ExtendAppend(s, [pending[0]], pending[1..][..j - 1]);
        assert [pending[0]] + pending[1..][..j - 1] == pending[..j];
        assert pending[1..][j - 1] == pending[j];
      }
    }
  }

  /** One step of the apply loop: a file whose transaction commits is
      followed by the rest of the loop from the state it leaves. */
  lemma ApplyAllAccepted(rejects: (Snapshot, Action) -> bool, s: Snapshot, pending: seq<Migration>)
    requires pending != [] && Transaction(rejects, s, pending[0]).None?
    ensures var p := ApplyAll(rejects, Extend(s, [pending[0]]), pending[1..]);
            ApplyAll(rejects, s, pending) == Progress(p.state, p.done + 1, p.failure)
  {
  }

  /** One step of the apply loop: a file whose transaction fails ends it. */
  lemma ApplyAllRejected(rejects: (Snapshot, Action) -> bool, s: Snapshot, pending: seq<Migration>)
    requires pending != [] && Transaction(rejects, s, pending[0]).Some?
    ensures ApplyAll(rejects, s, pending) == Progress(s, 0, Transaction(rejects, s, pending[0]))
  {
  }

  /** The loop halts at the first file whose transaction fails, and only
      there: if the files before `k` are accepted and file `k` is rejected (or
      there is no file `k`), the loop commits exactly `k` files. */
  lemma ApplyAllStopsAtFirstRejected(rejects: (Snapshot, Action) -> bool, s: Snapshot, pending: seq<Migration>, k: nat)
    requires k <= |pending|
    requires forall j :: 0 <= j < k ==> AcceptedAt(rejects, s, pending, j)
    requires k < |pending| ==> !AcceptedAt(rejects, s, pending, k)
    ensures ApplyAll(rejects, s, pending).done == k
  {
    var p := ApplyAll(rejects, s, pending);
    assert p.done < k ==> AcceptedAt(rejects, s, pending, p.done);
  }

  /** No file after the failing one is attempted: appending more files
      changes nothing about a run that fails. */
  lemma {:induction false} ApplyAllIgnoresLaterFiles(
    rejects: (Snapshot, Action) -> bool, s: Snapshot, pending: seq<Migration>, later: seq<Migration>)
    requires ApplyAll(rejects, s, pending).failure.Some?
    ensures ApplyAll(rejects, s, pending + later) == ApplyAll(rejects, s, pending)
    decreases |pending|
  {
    assert (pending + later)[0] == pending[0];
    if Transaction(rejects, s, pending[0]).None? {
      assert (pending + later)[1..] == pending[1..] + later;
      ApplyAllIgnoresLaterFiles(rejects, Extend(s, [pending[0]]), pending[1..], later);
    }
  }

  // ---------------------------------------------------------------------
  // The whole run (main.go:108-170)
  // ---------------------------------------------------------------------

  lemma VerifiedFitsFiles(applied: seq<Migration>, files: seq<string>)
    requires Drift(applied, files).None?
    ensures |applied| <= |files|
  {
    VerifiedIff(applied, files);
  }

  /** One run against committed state `s`, with the directory listing `dir`
      (already sorted) and the file system `fs`. Records are only ever
      appended: every old record survives unchanged, in place, and so does
      every executed migration. */
  function Reconcile(rejects: (Snapshot, Action) -> bool, s: Snapshot, dir: seq<string>, fs: map<string, string>): (r: Run)
    ensures |s.records| <= |r.state.records| && r.state.records[..|s.records|] == s.records
    ensures |s.executed| <= |r.state.executed| && r.state.executed[..|s.executed|] == s.executed
  {
    var u := FirstUnreadable(dir, fs, 0);
    if u < |dir| then Run(s, Unreadable(dir[u]))
    else
      var files := Bodies(dir, fs);
      var drift := Drift(s.records, files);
      if drift.Some? then Run(s, drift.value)
      else
        var m := |s.records|;
        VerifiedFitsFiles(s.records, files);
        if |files[m..]| == 0 then Run(s, UpToDate)
        else
          var p := ApplyAll(rejects, s, Zip(dir[m..], files[m..]));
          Run(p.state, if p.failure.Some? then p.failure.value else Applied(dir[m..]))
  }

  /** The state after pending files `|s.records|` to `k - 1` have committed,
      `files` holding the bodies in listing order. */
  function AppliedUpTo(s: Snapshot, dir: seq<string>, files: seq<string>, k: nat): Snapshot
    requires |dir| == |files| && |s.records| <= k <= |dir|
  {
    var m := |s.records|;
    Extend(s, Zip(dir[m..], files[m..])[..k - m])
  }

  /** The state after pending files `m` to `k - 1` holds their records, in
      order, after the old ones. */
  lemma AppliedUpToRecords(s: Snapshot, dir: seq<string>, files: seq<string>, k: nat)
    requires |dir| == |files| && |s.records| <= k <= |dir|
    ensures var m := |s.records|;
            AppliedUpTo(s, dir, files, k) == Extend(s, Zip(dir[m..k], files[m..k]))
  {
    ZipSlice(dir, files, |s.records|, k);
  }

  /** Pending file `j`'s transaction, run on the state the pending files before
      it left. */
  function PendingTransaction(rejects: (Snapshot, Action) -> bool, s: Snapshot, dir: seq<string>, files: seq<string>, j: nat): Option<Outcome>
    requires |dir| == |files| && |s.records| <= j < |dir|
  {
    Transaction(rejects, AppliedUpTo(s, dir, files, j), Migration(dir[j], files[j]))
  }

  lemma ZipSlice(dir: seq<string>, files: seq<string>, m: nat, j: nat)
    requires |dir| == |files| && m <= j <= |dir|
    ensures Zip(dir[m..], files[m..])[..j - m] == Zip(dir[m..j], files[m..j])
    ensures j < |dir| ==> Zip(dir[m..], files[m..])[j - m] == Migration(dir[j], files[j])
  {
  }

  /** The apply loop over the pending files, read file by file: it leaves the
      state after the files it committed, and a failure is that of the file
      where it stopped. */
  lemma PendingProgress(rejects: (Snapshot, Action) -> bool, s: Snapshot, dir: seq<string>, files: seq<string>, p: Progress)
    requires |dir| == |files| && |s.records| <= |dir|
    requires p == ApplyAll(rejects, s, Zip(dir[|s.records|..], files[|s.records|..]))
    ensures |s.records| + p.done <= |dir|
    ensures p.state == AppliedUpTo(s, dir, files, |s.records| + p.done)
    ensures p.failure.Some? ==>
              |s.records| + p.done < |dir| && p.failure == PendingTransaction(rejects, s, dir, files, |s.records| + p.done)
  {
  }

  /** Every file the apply loop committed was accepted, each on the state the
      files before it left. */
  lemma PendingAccepted(rejects: (Snapshot, Action) -> bool, s: Snapshot, dir: seq<string>, files: seq<string>, p: Progress)
    requires |dir| == |files| && |s.records| <= |dir|
    requires p == ApplyAll(rejects, s, Zip(dir[|s.records|..], files[|s.records|..]))
    ensures forall j :: |s.records| <= j < |s.records| + p.done ==> PendingTransaction(rejects, s, dir, files, j).None?
  {
    var m := |s.records|;
    var pending := Zip(dir[m..], files[m..]);
    forall j | m <= j < m + p.done
      ensures PendingTransaction(rejects, s, dir, files, j).None?
    {
      assert AcceptedAt(rejects, s, pending, j - m);
    }
  }

  /** The run halts at the first pending file whose transaction is refused:
      when files `m` to `k - 1` are accepted and file `k` is refused, the
      run commits exactly files `m` to `k - 1` and reports file `k`'s failure. */
  lemma FailureHaltsRun(rejects: (Snapshot, Action) -> bool, s: Snapshot, dir: seq<string>, fs: map<string, string>, k: nat)
    requires Readable(dir, fs) && Drift(s.records, Bodies(dir, fs)).None?
    requires |s.records| <= k < |dir|
    requires forall j :: |s.records| <= j < k ==> PendingTransaction(rejects, s, dir, Bodies(dir, fs), j).None?
    requires PendingTransaction(rejects, s, dir, Bodies(dir, fs), k).Some?
    ensures Reconcile(rejects, s, dir, fs) ==
              Run(AppliedUpTo(s, dir, Bodies(dir, fs), k), PendingTransaction(rejects, s, dir, Bodies(dir, fs), k).value)
  {
    var files := Bodies(dir, fs);
    var m := |s.records|;
    var pending := Zip(dir[m..], files[m..]);
    forall j | 0 <= j < k - m
      ensures AcceptedAt(rejects, s, pending, j)
    {
      assert PendingTransaction(rejects, s, dir, Bodies(dir, fs), m + j).None?;
    }
    ApplyAllStopsAtFirstRejected(rejects, s, pending, k - m);
  }

  /** When the check passes and every pending transaction is accepted, the
      run commits all pending files and reports their names. */
  lemma AcceptedRunApplies(rejects: (Snapshot, Action) -> bool, s: Snapshot, dir: seq<string>, fs: map<string, string>)
    requires Readable(dir, fs) && Drift(s.records, Bodies(dir, fs)).None?
    requires |s.records| < |dir|
    requires forall j :: |s.records| <= j < |dir| ==> PendingTransaction(rejects, s, dir, Bodies(dir, fs), j).None?
    ensures Reconcile(rejects, s, dir, fs) == Run(AppliedUpTo(s, dir, Bodies(dir, fs), |dir|), Applied(dir[|s.records|..]))
  {
    var files := Bodies(dir, fs);
    var m := |s.records|;
    var pending := Zip(dir[m..], files[m..]);
    forall j | 0 <= j < |dir| - m
      ensures AcceptedAt(rejects, s, pending, j)
    {
      assert PendingTransaction(rejects, s, dir, Bodies(dir, fs), m + j).None?;
    }
    ApplyAllStopsAtFirstRejected(rejects, s, pending, |dir| - m);
  }

  /** A run that halts on an unreadable, removed or changed migration, or
      finds nothing pending, writes nothing. */
  lemma NoWriteUnlessPending(rejects: (Snapshot, Action) -> bool, s: Snapshot, dir: seq<string>, fs: map<string, string>)
    ensures var r := Reconcile(rejects, s, dir, fs);
            (r.outcome.Unreadable? || r.outcome.Removed? || r.outcome.Changed? || r.outcome.UpToDate?) ==>
              r.state == s
  {
  }

  /** More applied records than files, all shared ones agreeing: the run halts
      with "removed", naming the record just past the last file, and writes
      nothing. */
  lemma RemovedRunWritesNothing(rejects: (Snapshot, Action) -> bool, s: Snapshot, dir: seq<string>, fs: map<string, string>)
    requires Readable(dir, fs)
    requires |dir| < |s.records|
    requires forall i :: 0 <= i < |dir| ==> Agrees(s.records, Bodies(dir, fs), i)
    ensures Reconcile(rejects, s, dir, fs) == Run(s, Removed(s.records[|dir|].name))
  {
    RemovedIff(s.records, Bodies(dir, fs), s.records[|dir|].name);
  }

  /** A body mismatch at a shared index halts the run with "changed", naming
      the applied record at the first mismatch, before anything is applied. */
  lemma ChangedRunWritesNothing(
    rejects: (Snapshot, Action) -> bool, s: Snapshot, dir: seq<string>, fs: map<string, string>, i: nat)
    requires Readable(dir, fs)
    requires i < |s.records| && i < |dir|
    requires forall j :: 0 <= j < i ==> Agrees(s.records, Bodies(dir, fs), j)
    requires !Agrees(s.records, Bodies(dir, fs), i)
    ensures Reconcile(rejects, s, dir, fs) == Run(s, Changed(s.records[i].name))
  {
    ChangedAtFirstMismatch(s.records, Bodies(dir, fs), i);
  }

  /** The run reports "up to date" exactly when the files are readable, the
      check passes and there are as many files as records. */
  lemma UpToDateIff(rejects: (Snapshot, Action) -> bool, s: Snapshot, dir: seq<string>, fs: map<string, string>)
    ensures Reconcile(rejects, s, dir, fs).outcome == UpToDate <==>
              Readable(dir, fs) && Drift(s.records, Bodies(dir, fs)).None? && |dir| == |s.records|
  {
    var u := FirstUnreadable(dir, fs, 0);
    if u == |dir| {
      var files := Bodies(dir, fs);
      if Drift(s.records, files).None? && |dir| != |s.records| {
        VerifiedFitsFiles(s.records, files);
        var m := |s.records|;
        var p := ApplyAll(rejects, s, Zip(dir[m..], files[m..]));
        assert p.failure.Some? ==> p.failure.value.Fatal();
      }
    }
  }

  /** A successful run commits one record per pending file, in order, after
      the old records, which are left unchanged. Each new record holds the
      file's raw body (only bodies at applied indices were normalised), and
      its SQL is executed. The report lists exactly the pending names. */
  lemma SuccessAppendsPending(rejects: (Snapshot, Action) -> bool, s: Snapshot, dir: seq<string>, fs: map<string, string>)
    requires Reconcile(rejects, s, dir, fs).outcome.Applied?
    ensures var r := Reconcile(rejects, s, dir, fs);
            var m := |s.records|;
            && Readable(dir, fs)
            && m < |dir|
            && r.outcome.names == dir[m..]
            && |r.state.records| == |dir|
            && r.state.records[..m] == s.records
            && (forall j :: m <= j < |dir| ==> r.state.records[j] == Migration(dir[j], fs[dir[j]]))
            && r.state.executed == s.executed + Bodies(dir, fs)[m..]
            && (forall j :: m <= j < |dir| ==> PendingTransaction(rejects, s, dir, Bodies(dir, fs), j).None?)
  {
    var files := Bodies(dir, fs);
    var m := |s.records|;
    VerifiedFitsFiles(s.records, files);
    var pending := Zip(dir[m..], files[m..]);
    var p := ApplyAll(rejects, s, pending);
    assert pending[..p.done] == pending;
    assert BodiesOf(pending) == files[m..];
    PendingProgress(rejects, s, dir, files, p);
    PendingAccepted(rejects, s, dir, files, p);
  }

  /** Atomicity per file: when a transaction fails, it is that of the first
      pending file k whose transaction is refused; the files before k were
      accepted and stay committed, nothing of file k persists, and the
      failure is that of file k's transaction. */
  lemma ApplyFailureKeepsEarlierFiles(rejects: (Snapshot, Action) -> bool, s: Snapshot, dir: seq<string>, fs: map<string, string>)
    requires var o := Reconcile(rejects, s, dir, fs).outcome; o.InsertFailed? || o.ExecFailed? || o.CommitFailed?
    ensures Readable(dir, fs) && |s.records| < |dir|
    ensures var r := Reconcile(rejects, s, dir, fs);
            var m := |s.records|;
            exists k :: m <= k < |dir| &&
              (forall j :: m <= j < k ==> PendingTransaction(rejects, s, dir, Bodies(dir, fs), j).None?) &&
              r.state == AppliedUpTo(s, dir, Bodies(dir, fs), k) &&
              PendingTransaction(rejects, s, dir, Bodies(dir, fs), k) == Some(r.outcome)
  {
    var files := Bodies(dir, fs);
    var m := |s.records|;
    VerifiedFitsFiles(s.records, files);
    var pending := Zip(dir[m..], files[m..]);
    var p := ApplyAll(rejects, s, pending);
    PendingProgress(rejects, s, dir, files, p);
    PendingAccepted(rejects, s, dir, files, p);
    var k := m + p.done;
    assert forall j :: m <= j < k ==> PendingTransaction(rejects, s, dir, Bodies(dir, fs), j).None?;
  }

  /** Running again with unchanged files finds nothing pending and writes
      nothing, whatever the database would accept this time. The second run
      reads the table `ORDER BY name`; when the table held the first names of
      the sorted listing, the table after the first run is in name order, so
      that read gives the rows in the order they are stored. */
  lemma RerunIsUpToDate(
    rejects: (Snapshot, Action) -> bool, again: (Snapshot, Action) -> bool,
    s: Snapshot, dir: seq<string>, fs: map<string, string>)
    requires Reconcile(rejects, s, dir, fs).outcome.Applied?
    requires Sorted(dir)
    requires |s.records| <= |dir| && Names(s.records) == dir[..|s.records|]
    ensures var r := Reconcile(rejects, s, dir, fs);
            Sorted(Names(r.state.records)) &&
            Reconcile(again, r.state, dir, fs) == Run(r.state, UpToDate)
  {
    var r := Reconcile(rejects, s, dir, fs);
    HealthyRunKeepsNameOrder(rejects, s, dir, fs);
    SuccessAppendsPending(rejects, s, dir, fs);
    var files := Bodies(dir, fs);
    var m := |s.records|;
    VerifiedIff(s.records, files);
    forall i | 0 <= i < |r.state.records|
      ensures Agrees(r.state.records, files, i)
    {
      if i < m {
        assert r.state.records[i] == r.state.records[..m][i];
        assert Agrees(s.records, files, i);
      } else {
        assert r.state.records[i] == Migration(dir[i], fs[dir[i]]);
        assert files[i] == fs[dir[i]];
      }
    }
    VerifiedIff(r.state.records, files);
  }

  function Names(rows: seq<Migration>): seq<string>
  {
    seq(|rows|, i requires 0 <= i < |rows| => rows[i].name)
  }

  /** When the table held the first |records| file names, a successful run
      leaves it holding all the file names, in directory order; with a sorted
      directory the table is therefore still in name order, which is the
      order `ORDER BY name` reads it back in on the next run. */
  lemma HealthyRunKeepsNameOrder(rejects: (Snapshot, Action) -> bool, s: Snapshot, dir: seq<string>, fs: map<string, string>)
    requires Reconcile(rejects, s, dir, fs).outcome.Applied?
    requires Sorted(dir)
    requires |s.records| <= |dir| && Names(s.records) == dir[..|s.records|]
    ensures Names(Reconcile(rejects, s, dir, fs).state.records) == dir
    ensures Sorted(Names(Reconcile(rejects, s, dir, fs).state.records))
  {
    var r := Reconcile(rejects, s, dir, fs);
    SuccessAppendsPending(rejects, s, dir, fs);
    var m := |s.records|;
    forall i | 0 <= i < |dir|
      ensures Names(r.state.records)[i] == dir[i]
    {
      if i < m {
        assert r.state.records[i] == s.records[i] by {
          assert r.state.records[i] == r.state.records[..m][i];
        }
        assert Names(s.records)[i] == dir[..m][i];
      }
    }
  }

  /** A database that accepts every request. */
  function AcceptAll(): (Snapshot, Action) -> bool
  {
    (s: Snapshot, a: Action) => false
  }

  /** With "001_init" applied and "002_add" new, the run applies "002_add"
      after the existing record and reports it, whatever the two bodies are. */
  lemma ExampleAppliesNewFile(init: string, add: string)
    ensures var s := Snapshot([Migration("001_init", init)], [init]);
            var fs := map["001_init" := init, "002_add" := add];
            Reconcile(AcceptAll(), s, ["001_init", "002_add"], fs) ==
              Run(Snapshot(s.records + [Migration("002_add", add)], s.executed + [add]), Applied(["002_add"]))
  {
    var s := Snapshot([Migration("001_init", init)], [init]);
    var dir := ["001_init", "002_add"];
    var fs := map["001_init" := init, "002_add" := add];
    var files := Bodies(dir, fs);
    assert Agrees(s.records, files, 0);
    VerifiedIff(s.records, files);
    var pending := Zip(dir[1..], files[1..]);
    assert pending == [Migration("002_add", add)];
    assert BodiesOf(pending) == [add];
  }

  // ---------------------------------------------------------------------
  // The imperative steps of main.go
  // ---------------------------------------------------------------------

  /** Fills `files` with the body of each listed file, halting on the first
      that cannot be read (main.go:119-126). */
  method ReadBodies(dir: array<string>, fs: map<string, string>, files: array<string>) returns (missing: Option<string>)
    requires files != dir && files.Length == dir.Length
    modifies files
    ensures var u := FirstUnreadable(dir[..], fs, 0);
            && missing == (if u < dir.Length then Some(dir[u]) else None)
            && (forall i :: 0 <= i < u ==> files[i] == fs[dir[i]])
            && (forall i :: u <= i < files.Length ==> files[i] == old(files[i]))
  {
    var i := 0;
    while i < dir.Length
      invariant 0 <= i <= dir.Length
      invariant FirstUnreadable(dir[..], fs, 0) == FirstUnreadable(dir[..], fs, i)
      invariant forall j :: 0 <= j < i ==> files[j] == fs[dir[j]]
      invariant forall j :: i <= j < files.Length ==> files[j] == old(files[j])
    {
      if dir[i] !in fs {
        return Some(dir[i]);
      }
      files[i] := fs[dir[i]];
      i := i + 1;
    }
    return None;
  }

  /** The first `n` files normalised, the rest as they were. */
  function NormalizedUpTo(files: seq<string>, n: nat): seq<string>
  {
    seq(|files|, i requires 0 <= i < |files| => if i < n then Normalize(files[i]) else files[i])
  }

  /** The first `n` records with normalised bodies, the rest as they were. */
  function RecordsNormalizedUpTo(rows: seq<Migration>, n: nat): seq<Migration>
  {
    seq(|rows|, i requires 0 <= i < |rows| =>
      if i < n then rows[i].(body := Normalize(rows[i].body)) else rows[i])
  }

  /** How many indices the check normalises before it stops. */
  function Scanned(applied: seq<Migration>, files: seq<string>): nat
  {
    var k := FirstDrift(applied, files, 0);
    if k < |applied| && k < |files| then k + 1 else k
  }

  /** The check of main.go:128-141, normalising both sides in place at each
      shared index before comparing them. */
  method VerifyApplied(applied: array<Migration>, files: array<string>) returns (drift: Option<Outcome>)
    modifies applied, files
    ensures drift == Drift(old(applied[..]), old(files[..]))
    ensures applied[..] == RecordsNormalizedUpTo(old(applied[..]), Scanned(old(applied[..]), old(files[..])))
    ensures files[..] == NormalizedUpTo(old(files[..]), Scanned(old(applied[..]), old(files[..])))
  {
    ghost var a0, f0 := applied[..], files[..];
    var i := 0;
    while i < applied.Length
      invariant 0 <= i <= applied.Length && i <= files.Length
      invariant FirstDrift(a0, f0, 0) == FirstDrift(a0, f0, i)
      invariant applied[..] == RecordsNormalizedUpTo(a0, i)
      invariant files[..] == NormalizedUpTo(f0, i)
    {
      if files.Length <= i {
        return Some(Removed(applied[i].name));
      }
      applied[i] := applied[i].(body := Normalize(applied[i].body));
      files[i] := Normalize(files[i]);
      assert applied[..] == RecordsNormalizedUpTo(a0, i + 1);
      assert files[..] == NormalizedUpTo(f0, i + 1);
      if files[i] != applied[i].body {
        return Some(Changed(applied[i].name));
      }
      i := i + 1;
    }
    return None;
  }

  /** One iteration of main.go:152-165: insert the record, run its SQL and
      commit, rolling back and halting when a request is refused. */
  method ApplyOne(db: Database, row: Migration) returns (failure: Option<Outcome>)
    requires db.Idle()
    modifies db
    ensures db.Idle()
    ensures failure == Transaction(db.rejects, old(db.Committed()), row)
    ensures db.Committed() == if failure.None? then Extend(old(db.Committed()), [row]) else old(db.Committed())
  {
    ghost var cur := db.Committed();
    db.Begin();
    assert db.View() == cur;
    var ok := db.Create(row);
    if !ok {
      db.Rollback();
      return Some(InsertFailed);
    }
    assert db.View() == Snapshot(cur.records + [row], cur.executed);
    ok := db.Exec(row.body);
    if !ok {
      db.Rollback();
      return Some(ExecFailed(row.name));
    }
    assert BodiesOf([row]) == [row.body];
    assert db.View() == Extend(cur, [row]);
    ok := db.Commit();
    if !ok {
      return Some(CommitFailed);
    }
    return None;
  }

  /** The apply loop of main.go:152-165: one transaction per pending file,
      halting on the first failure. */
  method ApplyPending(db: Database, names: seq<string>, bodies: seq<string>) returns (failure: Option<Outcome>)
    requires db.Idle() && |names| == |bodies|
    modifies db
    ensures db.Idle()
    ensures var p := ApplyAll(db.rejects, old(db.Committed()), Zip(names, bodies));
            db.Committed() == p.state && failure == p.failure
  {
    ghost var s0 := db.Committed();
    ghost var pending := Zip(names, bodies);
    var i := 0;
    while i < |names|
      invariant 0 <= i <= |names|
      invariant db.Idle()
      invariant var p := ApplyAll(db.rejects, db.Committed(), pending[i..]);
                ApplyAll(db.rejects, s0, pending) == Progress(p.state, p.done + i, p.failure)
    {
      ghost var cur := db.Committed();
      var row := Migration(names[i], bodies[i]);
      assert pending[i..][0] == row && pending[i..][1..] == pending[i + 1..];
      var f := ApplyOne(db, row);
      if f.Some? {
        ApplyAllRejected(db.rejects, cur, pending[i..]);
        return f;
      }
      ApplyAllAccepted(db.rejects, cur, pending[i..]);
      i := i + 1;
    }
    assert pending[i..] == [];
    return None;
  }

  /** One run of main.go:108-170 on database `db`, directory listing `dir`
      and file system `fs`: sorts the listing in place, then does exactly what
      `Reconcile` describes. */
  method Migrate(db: Database, dir: array<string>, fs: map<string, string>) returns (outcome: Outcome)
    requires db.Idle()
    modifies db, dir
    ensures db.Idle()
    ensures Sorted(dir[..]) && multiset(dir[..]) == multiset(old(dir[..]))
    ensures Run(db.Committed(), outcome) == Reconcile(db.rejects, old(db.Committed()), dir[..], fs)
  {
    var records := db.records;
    SortByName(dir);
    var files := new string[dir.Length];
    var missing := ReadBodies(dir, fs, files);
    if missing.Some? {
      return Unreadable(missing.value);
    }
    ghost var raw := files[..];
    assert raw == Bodies(dir[..], fs);
    var applied := new Migration[|records|](i requires 0 <= i < |records| => records[i]);
    assert applied[..] == records;
    var drift := VerifyApplied(applied, files);
    if drift.Some? {
      return drift.value;
    }
    var m := applied.Length;
    VerifiedFitsFiles(records, raw);
    assert Scanned(records, raw) == m;
    var pendingBodies := files[m..];
    var pendingNames := dir[m..];
    assert pendingBodies == raw[m..];
    if |pendingBodies| == 0 {
      return UpToDate;
    }
    var failure := ApplyPending(db, pendingNames, pendingBodies);
    if failure.Some? {
      return failure.value;
    }
    return Applied(pendingNames);
  }
}
