# migrator: a verified model of the migration reconciler

`migrator` is a one-shot tool. It applies the SQL files bundled in its
`migrations/` directory to a Postgres database, each exactly once. Every
applied file leaves a row (name, body) in a `migrations` table. On each run
the tool reads those rows and checks them against the files, index by index.
It halts when a row has no file left at its index ("removed"), or when a row's
body differs from its file's body after line-ending normalisation ("changed").
Otherwise it applies the remaining files in order, one transaction per file.

This project models that reconciler and the connection-URL formatter, and
proves the properties they promise.

Modules:

- `Config` (`config.dfy`): the configuration record and `ConnURL`. Beside it
  are the decimal rendering of `%d`, its parser, and a reference parser for
  the URL.
- `LineEndings` (`line_endings.dfy`): `Normalize`, which is
  `strings.Replace(s, "\r\n", "\r", -1)`, and what it does and does not make
  equal.
- `NameOrder` (`name_order.dfy`): Go's `<` on file names, and the in-place sort
  of the directory listing.
- `Store` (`store.dfy`): the migration record, the committed database state and
  the `Database` class. The class has one transaction at a time: `Begin`,
  `Create`, `Exec`, `Rollback`, `Commit`. The server's accept-or-refuse
  decision is a fixed oracle `rejects`. It sees the state the request sees:
  the committed state plus the open transaction's own writes.
- `Reconciler` (`reconciler.dfy`): the whole run as a specification function
  `Reconcile`, with its lemmas. Beside it are the imperative steps of `main`:
  `ReadBodies`, `VerifyApplied` (normalises both arrays in place, as the source
  does), `ApplyPending` (the transaction loop) and `Migrate` (the whole run).
  `Migrate` is proved to sort the listing and then do exactly what `Reconcile`
  says.
- `Options` (`options.dfy`): the `Option` datatype.

Where the documented behaviour of the tool and its code disagree, the model follows the code:

- Names are never compared. Only bodies are compared, by index in the sorted
  listing. A row whose file was renamed, keeping its body and its place in the
  sorted listing, passes the check; a rename that moves the file is reported
  as changed. "Removed" means only
  "more rows than files". `DriftIgnoresNames` proves that names play no part.
- The normalisation turns "\r\n" into "\r", not "\n". So a body with LF line
  endings and the same body with CRLF endings still compare unequal
  (`LfDiffersFromCrlf`). CRLF and CR bodies do compare equal
  (`CrlfComparesAsCr`). The normalisation is also not idempotent
  (`NormalizeNotIdempotent`).
- The rows are read back `ORDER BY name`, but they are checked against the
  files by index. The two orders agree at least while the table's names are
  the first names of the sorted directory. A renamed file breaks this: rows
  appended later can then sort ahead of it, and the next run reports a
  "changed" migration although nothing changed.

## Model

| member | source | states |
|---|---|---|
| `NameOrder.BelowIrreflexive` | main.go:116-118 | no name sorts before itself |
| `NameOrder.BelowTransitive` | main.go:116-118 | the `<` the sort uses is transitive |
| `NameOrder.BelowTotal` | main.go:116-118 | of two distinct names, one sorts before the other |
| `NameOrder.BelowAsymmetric` | main.go:116-118 | two names never sort before each other both ways |
| `NameOrder.NotBelowIsAtMost` | main.go:116-118 | when `a < b` fails, `b <= a` holds |
| `NameOrder.AtMostTransitive` | main.go:116-118 | `<=` on names is transitive |
| `NameOrder.SortByName` | main.go:116-118 | after the in-place sort the listing is in ascending name order and is a permutation of what it was |
| `LineEndings.Normalize` | main.go:134-135 | the result is shorter than the input by exactly the number of "\r\n" occurrences in the input |
| `LineEndings.CrlfCountZero` | main.go:134-135 | the count of "\r\n" occurrences is zero exactly when the string holds no "\r\n" |
| `LineEndings.NormalizeFixedIff` | main.go:134-135 | normalising leaves a body unchanged if and only if it holds no "\r\n" |
| `LineEndings.NormalizeNotIdempotent` | main.go:134-135 | "\r\n\n" normalises to "\r\n", which normalises again to "\r" |
| `LineEndings.CrlfComparesAsCr` | main.go:133-136 | for a text without "\r", its CRLF form and its CR form both normalise to the CR form |
| `LineEndings.CrLinesHasNoLf` | main.go:133-136 | the CR form of a text holds no "\n" |
| `LineEndings.LfDiffersFromCrlf` | main.go:133-136 | a text with "\n" line endings and its CRLF form normalise to different strings, so such a pair is reported as changed |
| `Store.Database.Begin` | main.go:153 | opens a transaction with nothing staged; committed state unchanged |
| `Store.Database.Create` | main.go:154 | stages the row exactly when the server accepts the insert |
| `Store.Database.Exec` | main.go:158 | stages the SQL exactly when the server accepts it, with the staged row visible to it |
| `Store.Database.Rollback` | main.go:155 | ends the transaction, discarding what was staged; committed state unchanged |
| `Store.Database.Commit` | main.go:162-164 | ends the transaction; the staged row and SQL become committed exactly when the server accepts the commit, and nothing persists otherwise |
| `Reconciler.FirstUnreadable` | main.go:119-126 | the index returned is the first listed file the file system cannot read; every file before it is readable |
| `Reconciler.ReadBodies` | main.go:119-126 | fills the bodies in listing order; halts naming the first unreadable file, with the files after it untouched |
| `Reconciler.Drift` | main.go:128-141 | the check halts only with "removed" or "changed", naming an applied record; "removed" only when there are more records than files |
| `Reconciler.FirstDrift` | main.go:128-141 | every record before the returned index has a file and agrees with it by normalised body; the record at the index has no file or disagrees |
| `Reconciler.VerifiedIff` | main.go:128-141 | the check passes if and only if there are at least as many files as records and every record agrees with the file at its index |
| `Reconciler.VerifiedFitsFiles` | main.go:128-131 | a passing check implies no more records than files |
| `Reconciler.RemovedIff` | main.go:128-131 | the check reports record `n` removed if and only if there are more records than files, all shared indices agree, and `n` is the record just past the last file |
| `Reconciler.ChangedAtFirstMismatch` | main.go:128-139 | the first index whose bodies disagree is reported as changed, naming that record |
| `Reconciler.ChangedOnlyAtFirstMismatch` | main.go:128-139 | a "changed" report always names a record at the first disagreeing index |
| `Reconciler.DriftIgnoresNames` | main.go:128-139 | records with the same bodies but different names stop the check at the same index |
| `Reconciler.VerifyApplied` | main.go:128-141 | the in-place loop reports what the check specifies; the indices it visited hold normalised bodies on both sides, and the rest are untouched |
| `Reconciler.ExtendAppend` | main.go:152-165 | committing two batches one after the other equals committing them together |
| `Reconciler.Transaction` | main.go:153-164 | a failed transaction reports the insert, the SQL (naming the file) or the commit |
| `Reconciler.ApplyOne` | main.go:153-164 | one transaction on the database reports exactly `Transaction`'s failure; the record and its SQL become committed together when it succeeds, and nothing changes when it fails |
| `Reconciler.ApplyAll` | main.go:152-165 | the state holds exactly the pending files before the stopping point, and each of them was accepted; it stops early only at the file whose transaction failed, with that failure |
| `Reconciler.ApplyAllStopsAtFirstRejected` | main.go:152-165 | when the files before `k` are accepted and file `k` is refused (or there is none), the loop commits exactly `k` files |
| `Reconciler.ApplyAllIgnoresLaterFiles` | main.go:152-165 | once a file fails, the files after it are not attempted: adding more changes nothing |
| `Reconciler.ApplyPending` | main.go:152-165 | the transaction loop leaves the database in the state and reports the failure that `ApplyAll` specifies |
| `Reconciler.Reconcile` | main.go:108-170 | a run never changes or removes an existing record or executed migration; it only appends |
| `Reconciler.NoWriteUnlessPending` | main.go:119-149 | a run that halts on an unreadable, removed or changed migration, or is up to date, writes nothing |
| `Reconciler.RemovedRunWritesNothing` | main.go:128-131 | more records than files, with all shared indices agreeing: the run halts naming the record just past the last file, and writes nothing |
| `Reconciler.ChangedRunWritesNothing` | main.go:128-141 | a body mismatch at a shared index halts the run naming the record at the first mismatch, before any pending file is attempted |
| `Reconciler.UpToDateIff` | main.go:144-149 | the run reports "up to date" if and only if the files are readable, the check passes and there are as many files as records |
| `Reconciler.SuccessAppendsPending` | main.go:144-170 | on success the old records are kept, then one record per pending file follows in order, holding the file's raw body; that SQL is executed; every pending transaction was accepted; the report lists exactly the pending names `dir[len(applied):]` |
| `Reconciler.ApplyFailureKeepsEarlierFiles` | main.go:152-165 | a run that fails in a transaction failed at a pending file k whose earlier pending files were all accepted; those stay committed, nothing of file k persists, and the reported failure is file k's |
| `Reconciler.FailureHaltsRun` | main.go:144-165 | when the check passes, pending files before k are accepted and file k is refused, the run commits exactly the files before k and reports file k's failure |
| `Reconciler.AcceptedRunApplies` | main.go:144-170 | when the check passes and every pending transaction is accepted, the run commits all pending files and reports their names |
| `Reconciler.AppliedUpToRecords` | main.go:152-165 | the state after pending files `m` to `k - 1` holds their records (name and raw body), in order, after the old ones, and their SQL after the old SQL |
| `Reconciler.RerunIsUpToDate` | main.go:108-170 | when the table held the first names of the sorted listing, a successful run leaves it in name order, and a second run with the same files finds nothing pending and writes nothing, whatever the server would accept |
| `Reconciler.HealthyRunKeepsNameOrder` | main.go:144-165 | when the table held the first names of the sorted listing, a successful run leaves it holding all the file names in directory order, so it is sorted by Go's `<` on names |
| `Reconciler.ExampleAppliesNewFile` | main.go:144-170 | with `001_init` applied and `002_add` new, the run appends `002_add` and reports `["002_add"]` |
| `Reconciler.Migrate` | main.go:108-170 | sorts the listing in place, then leaves the database in the state, and reports the outcome, that `Reconcile` specifies for the sorted listing |
| `Config.ConnURL` | main.go:38-48 | the URL carries every field of the database section: read back, it gives the section, provided user and host hold no ':' and password no '@' |
| `Config.Decimal` | main.go:39-45 | what `%d` prints is non-empty, starts with '-' exactly for a negative number, and is digits after the sign |
| `Config.Digits` | main.go:39-45 | the rendering of a natural number is a non-empty string of digits without a leading zero |
| `Config.DigitsRoundTrip` | main.go:39-45 | reading back the digits of `n` gives `n` |
| `Config.DecimalRoundTrip` | main.go:39-45 | reading back what `%d` prints for any int gives that int |
| `Config.NotInDecimal` | main.go:39-45 | what `%d` prints holds only a minus sign and digits |
| `Config.IndexOf` | main.go:38-47 | helper of the reference URL parser: the index returned is the first occurrence of the character, or the length when there is none |
| `Config.SplitAtJoin` | main.go:38-47 | helper of the reference URL parser: a string built as `a + c + b`, with no `c` in `a`, splits at its first `c` into `a` and `b` |
| `Config.ConnURLNotInjective` | main.go:38-47 | no field is escaped: two different database sections can give the same URL |

## Left out

- `initConfig` (main.go:50-76): reading the YAML file, validating the fields
  (`binding`, including the port range 1-65535) and setting up logrus. These
  are file I/O and library calls. `Config` is a plain value here, and
  `ConnURL` is modelled for any port, negative ones included, as `%d` prints
  them.
- Opening the connection, the logger set-up and creating the table
  (main.go:86-106) are not modelled. A `Database` holds the state they produce.
- The `ORDER BY name` query (main.go:109): the rows are read in the order the
  `Database` stores them. `HealthyRunKeepsNameOrder` shows that this is name
  order for as long as the table holds the first names of the sorted
  directory. A failure of the query is not modelled.
- HealthyRunKeepsNameOrder: proves order by Go's `<`, which compares bytes.
  That the database's `ORDER BY name` gives the same order is assumed: it
  holds under the C collation, not under a locale collation such as
  en_US.UTF-8, where "a.sql" sorts before "B.sql".
- RerunIsUpToDate: holds only when the table held the first names of the
  sorted listing. Otherwise the next run reads the rows `ORDER BY name`, which
  is not the order in which they are stored, and can report "changed" (for
  example, a record "005_x" kept for a renamed file "001_x" sorts after a
  newly applied "003_y"). That read is not modelled.
- `Embed.ReadDir` (main.go:112-115) is not modelled: the listing is given as
  an array of names. `Embed.ReadFile` is a lookup in a map from name to body.
  A name missing from the map is the read error.
- What the SQL does, and why the server accepts or refuses a request, are not
  modelled. A fixed oracle decides, and `executed` records the SQL that was
  committed.
- `db.Begin()` (main.go:153) never fails here. In the source its error is kept
  in `tx.Error` and comes back from `tx.Create` as "can't init migration
  stat"; the model reaches the same `InsertFailed` outcome because the oracle
  may refuse the insert.
- `tx.Rollback()`'s own error is ignored by the source, so rollback always
  succeeds here.
- A commit error is taken to mean that nothing was committed. An error
  reported after the server has committed (the connection dropping during
  `tx.Commit()`, main.go:162) would leave the file's record and SQL in place
  while the run reports `CommitFailed`. That case is not modelled.
- `SortByName`: `sort.Slice` is pattern-defeating quicksort, which falls back
  to insertion sort on short slices. The model uses insertion sort for every
  length and proves what `sort.Slice` promises. The sort is not stable, but
  that cannot show: entries that compare equal have equal names.
- `diff.CharacterDiff` (main.go:138): only the failure it accompanies is
  modelled, not the diff text.
- `ID` and `CreatedAt` (main.go:79-80) are assigned by the database. The
  messages printed and logged, and the process exit, are not modelled. Each
  `logrus.Fatal` is an `Outcome`.
- Bodies are Go strings of bytes (`string(file)`, main.go:125) compared byte by
  byte. Here they are Dafny strings of characters, so a file that is not valid
  UTF-8 cannot be represented. On valid UTF-8 the comparison and the
  normalisation agree, because CR and LF never occur inside a multi-byte
  sequence.
- Two runs at once against the same database are not guarded against by the
  source, and are not modelled.
