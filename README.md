# sia_benchmark in Dafny

A model of the bookkeeping core of `sia_benchmark`, a tool that drives a
Sia storage node with uploads until its upload rate drops below a minimum
or enough file data is stored. It covers four parts:

- The collector (`collector/collect.go`) folds the node's file list, active
  and inactive contracts, wallet and renter settings into one metrics
  record. Its loops are proved to compute fold functions. The lemmas prove
  that the file buckets reconcile, that the inactive contracts split into
  renewed and disabled, and which contracts each total runs over.
- The metrics record and its CSV row (`collector/metrics.go`): 25 column tags
  in field order, and a row whose column `i` holds the field header `i`
  names. Numbers are rendered in canonical base 10, with a round trip proved
  in both directions. The timestamp is `YYYY-MM-DDTHH:MM:SSZ`, with a round
  trip for years 0 to 9999.
- The upload queue (`collector/file_uploads.go`):
  - the remote path of a local name, and the 36-character hexadecimal name
    of a new upload (lowercase, section 8 of RFC 4648);
  - the life of a local file through an upload, which is cleaned up on
    every failure after creation;
  - the sweep that removes local copies the node has finished storing. It
    stops at the first error.
- The measurement loop (`main.go`):
  - a `Tracker` class holds the circular bandwidth log as an array, with
    its cursor, warm-up flag, previous size, average and upload guard;
  - one round is a `Tick` method;
  - the exit verdict, the launch rule with its worker count, and the wake
    time are functions.

The local file system is a set of full paths. Every answer of the storage
node and of the operating system is an input: a `Result` value, or a function
from path to answer.

Go's `uint64` arithmetic wraps around at 2^64, and the model writes this out
in the byte totals, the contract size, the sum of the bandwidth log and the
launch rule. Currency amounts are unbounded naturals.

## Behaviour worth knowing

- The average during the first cycle is the sum of slots 1 to the cursor
  divided by the cursor, that is, by the number of rounds after the first
  in this cycle (`Benchmark.FirstCycleAverage`). A round that records no
  rate (no earlier size, or a size that fell) counts as a zero slot. In the two-round example of
  60 s and 120 slots, the average is 1,000,000
  (`Benchmark.TwoRoundExample`).
- A slot is only written when there was a previous non-zero size not above
  the current one. Otherwise the slot keeps its old value; no zero is
  stored.
- The sweep stops at the first status or removal error, leaving the rest
  of the listing for a later round.
- The loop wakes at `(now / d + 1) * d`, which is strictly after `now`
  even when `now` is already a multiple of `d`.
- A failed collection returns the record as far as it got, together with
  the error. The loop then discards that record.

The batch launched from `main.go` passes `uploadsDir/<n>.dat` as the
directory of each new file (main.go:299). Nothing in `main.go` creates that
directory, so as the code is written, `os.Create` in `UploadFile`
(collector/file_uploads.go:38) fails with "no such file or directory"
unless a directory of that name happens to exist already. The model's file
system is a flat set of paths and the create error is an input, so it
cannot show this failure. It does show the other consequence: a file that
is written is not a direct entry of the upload directory, and no name the
sweep lists leads to it (`Benchmark.WorkerFileNested`). The model keeps
this directory argument exactly as the code builds it.

## Model

| member | source | states |
|---|---|---|
| Metrics.DecimalRoundTrip | collector/metrics.go:65-87 | The base-10 text of every count, byte total and currency amount is canonical (digits only, no leading zero) and reads back as the same number. |
| Metrics.CanonicalRoundTrip | collector/metrics.go:65-87 | Every canonical digit string is the rendering of the number it denotes, so each value has exactly one text. |
| Metrics.PaddedRoundTrip | collector/metrics.go:63 | A two- or four-digit zero-padded field has exactly that width, is all digits and reads back as its value. |
| Metrics.TimestampRoundTrip | collector/metrics.go:63 | For a valid UTC time in years 0 to 9999, the rendered timestamp has 20 characters in the form `YYYY-MM-DDTHH:MM:SSZ` and parses back to the same time. |
| Metrics.Values | collector/metrics.go:61-89 | A row has exactly as many values as there are headers, 25. |
| Metrics.RowMatchesHeaders | collector/metrics.go:14-89 | Header `i` is the tag of the `i`-th declared field. Column 0 is the timestamp and column 1 the latency. Every other column is the canonical base-10 text of exactly the field header `i` names. |
| Metrics.Decimal | collector/metrics.go:65-87 | The base-10 rendering of a number. `Metrics.DecimalRoundTrip` and `Metrics.CanonicalRoundTrip` state that it is canonical, reads back as the number and is the only canonical text of it. |
| Metrics.FormatTimestamp | collector/metrics.go:63 | The `YYYY-MM-DDTHH:MM:SSZ` rendering of the timestamp. `Metrics.TimestampRoundTrip` states its form and that it parses back. |
| Metrics.HeadersDistinct | collector/metrics.go:14-57 | Every field appears once in the column order, and no two columns share a tag. |
| Collect.Collected | collector/collect.go:13-107 | The record and first error of a collection round. `Collect.CollectedFailures` states what each failure leaves, and `Collect.CollectMetrics` is proved to compute it. |
| Collect.WithFiles | collector/collect.go:21-32 | The file section of the record. `Collect.FileStatsReconcile` and `Collect.FileBuckets` state its counts and byte totals. |
| Collect.WithContracts | collector/collect.go:40-80 | The contract section of the record. `Collect.ContractCountsReconcile`, `Collect.ContractSpendingReconcile` and `Collect.ContractSizeReconcile` state its counts and totals. |
| Collect.WithWallet | collector/collect.go:87-89 | The wallet section: the confirmed balance and the unconfirmed outgoing and incoming amounts. `Collect.CollectedFailures` states when it is filled. |
| Collect.WithRenter | collector/collect.go:96-102 | The renter section: the allowance and the six financial metrics. `Collect.CollectedFailures` states that it stays zero after any error. |
| Collect.CollectMetrics | collector/collect.go:13-107 | The collector's loops yield exactly the record and the first error that `Collected` describes. |
| Collect.FileStats | collector/collect.go:21-32 | Every file is counted. Uploaded bytes are summed over all files, the in-progress count counts unfinished files, and finished bytes are summed over finished files only. Byte sums are modulo 2^64. |
| Collect.ActiveHosts | collector/collect.go:40-44 | The host set is the set of host keys of the active contracts. |
| Collect.SplitInactive | collector/collect.go:46-54 | The inactive contracts are split in order into renewed ones (their host is in the set) and disabled ones. |
| Collect.SumSpending | collector/collect.go:61-68 | The four spending totals and the remaining funds are the sums over the given contracts. |
| Collect.SumSize | collector/collect.go:70-73 | The size total is the sum of the sizes, modulo 2^64. |
| Collect.FileBuckets | collector/collect.go:21-32 | Each file lies in exactly one bucket: the in-progress count plus the finished count is the number of files. |
| Collect.HostsHaveContract | collector/collect.go:40-49 | A key is in the host set iff some active contract has that host key. |
| Collect.InactivePartition | collector/collect.go:46-59 | Renewed and disabled contracts together hold every inactive contract exactly once, as multisets and by count. |
| Collect.InactiveClassified | collector/collect.go:46-54 | An inactive contract is renewed iff its host holds an active contract, and disabled iff not. |
| Collect.FileStatsReconcile | collector/collect.go:21-32 | In the record, the file count is the number of files, in-progress plus finished equals the file count, the finished bytes are the sum over finished files and the uploaded bytes the sum over all files, both modulo 2^64. |
| Collect.ContractCountsReconcile | collector/collect.go:56-59 | The active count is the number of active contracts, and renewed plus disabled is the number of inactive ones. |
| Collect.ContractSpendingReconcile | collector/collect.go:61-80 | Fee spending and remaining funds run over active and inactive contracts alike. Total spending is what every contract spent on fees, storage, upload and download, without its remaining funds. |
| Collect.ContractSizeReconcile | collector/collect.go:70-73 | The total size counts active and disabled contracts and leaves renewed ones out, modulo 2^64. |
| Collect.CollectedFailures | collector/collect.go:13-107 | There is no error iff all four queries succeed. A failed file query leaves the zero record with its timestamp. A failed contract query leaves the record with only the file section filled, a failed wallet query the record with the file and contract sections, and a failed renter query the record with everything but the renter section. After any error the latency and all seven renter fields are zero. The timestamp is always set. |
| FileUploads.SiaPathShape | collector/file_uploads.go:17-25 | The remote path is the name's first character, `/`, its second character, `/`, then the name, so the name can be read back from it. |
| FileUploads.SiaPath | collector/file_uploads.go:17-25 | The remote path of a local name is four characters longer than the name. `FileUploads.SiaPathShape` and `FileUploads.SiaPathInjective` state its form and that it is injective. |
| FileUploads.SiaPathInjective | collector/file_uploads.go:17-25 | Two names share a remote path iff they are equal. |
| FileUploads.HexEncode | collector/file_uploads.go:35 | The hexadecimal text has two characters per byte, all from the lowercase alphabet. |
| FileUploads.HexRoundTrip | collector/file_uploads.go:35 | Decoding the hexadecimal text of any bytes gives those bytes back. |
| FileUploads.LocalName | collector/file_uploads.go:35-36 | The name of a new upload. `FileUploads.LocalNameShape` states its length, extension, first characters and injectivity. |
| FileUploads.LocalNameShape | collector/file_uploads.go:35-36 | A new local name has 36 characters, ends in `.dat` and starts with two hexadecimal digits, so it has a remote path. Different random bytes give different names. |
| FileUploads.UploadFile | collector/file_uploads.go:29-63 | Only the new file's path can change. A failed create leaves the directory as it was, returns the error and makes no request. A failed fill removes the file and makes no request. Otherwise the upload is requested for the new file under the remote path of its name, and the file stays iff the request succeeds. |
| FileUploads.Sweep | collector/file_uploads.go:67-88 | What the sweep over a listing does. `FileUploads.SweepError`, `FileUploads.SweepRemoves` and `FileUploads.SweepOutcome` state it without replaying it, and `FileUploads.FinishUploads` is proved to compute it. |
| FileUploads.FinishUploads | collector/file_uploads.go:67-88 | A failed listing returns its error and removes nothing. Otherwise the loop leaves the files and the error that the sweep `Sweep` describes. |
| FileUploads.Stop | collector/file_uploads.go:73-85 | Every name before the stopping index is handled without error, and the name at that index (if any) fails its status query or its removal. |
| FileUploads.DonePathsMembers | collector/file_uploads.go:79-85 | A path is marked for removal iff it is the upload directory joined with a listed name whose status could be read and says the upload is complete and fully healthy. |
| FileUploads.SweepOutcome | collector/file_uploads.go:67-88 | The sweep reports an error iff some name stops it, and that error is about the stopping name. It removes exactly the done files listed before that name, and every other local file stays. |
| FileUploads.SweepError | collector/file_uploads.go:67-88 | The sweep reports no error iff no listed name stops it. Otherwise the error is the status error or the removal error of the first name that stops it. |
| FileUploads.SweepRemoves | collector/file_uploads.go:67-88 | The local files left after the sweep are the ones before it minus the done files listed before the first name that stops it. |
| Benchmark.WakeTime | main.go:185 | The next wake time, `Truncate(now + d, d)`. `Benchmark.WakeTimeAligned` states that it is the next multiple of `d` strictly after `now`. |
| Benchmark.WakeTimeAligned | main.go:185 | The wake time is a multiple of the interval, strictly after `now` and at most one interval later, namely `(now / d + 1) * d`. |
| Benchmark.ExitVerdict | main.go:317-363 | The exit verdict from the average and the stored bytes. `Benchmark.VerdictCases` and `Benchmark.FailureFirst` state when it fails, succeeds or continues. |
| Benchmark.VerdictCases | main.go:317-363 | The test fails iff the average is below the minimum rate. It succeeds iff the rate is high enough and a non-zero threshold is reached. A zero threshold never succeeds. |
| Benchmark.FailureFirst | main.go:326-362 | Failure takes precedence over success, and more stored data never turns a failure or a success into anything else. |
| Benchmark.WorkerCount | main.go:294 | A batch starts at least one worker, and the workers fill the free slots exactly up to the maximum. |
| Benchmark.ShouldLaunch | main.go:281-285 | The launch rule with `uint64` wrap-around. `Benchmark.LaunchWithoutOverflow` states that without overflow it is the plain condition, and `Benchmark.LaunchWrapExample` shows the wrap. |
| Benchmark.LaunchWithoutOverflow | main.go:281-285 | When no `uint64` sum or product overflows, the launch rule is the plain condition: not uploading, not watching only, a free slot, enough active contracts for data plus parity pieces, and finished plus in-flight data under a non-zero threshold or no threshold. |
| Benchmark.LaunchWrapExample | main.go:284 | The in-flight product wraps around: with a 2^63-byte file size and two uploads in flight, a batch launches although the data in flight exceeds the threshold. |
| Benchmark.Fresh | main.go:172-182 | The log before the first round is consistent. |
| Benchmark.Advance | main.go:201-212 | One round of the bandwidth log. `Benchmark.AdvanceCursor`, `Benchmark.AdvanceSlots`, `Benchmark.AdvanceConsistent` and `Benchmark.CursorAdvances` state what it changes and keeps. |
| Benchmark.AdvanceCursor | main.go:201-206 | After a round the cursor is one further modulo the number of slots and inside the log. The first cycle ends exactly when the cursor wraps, and never resumes. The previous size becomes the current one. |
| Benchmark.AdvanceSlots | main.go:208-212 | Only the slot under the new cursor may change. It becomes `(total - lastSize) / interval` when the previous size is non-zero and not above the total, and otherwise the whole log is unchanged. |
| Benchmark.AdvanceConsistent | main.go:201-212 | A round keeps the log consistent: the cursor stays in range, and in the first cycle the first slot and all slots after the cursor stay empty. |
| Benchmark.CursorAdvances | main.go:179-206 | After `t` successful rounds the cursor is `(t - 1) mod n`, and the first cycle lasts while `t <= n`. One more round moves both on. |
| Benchmark.Average | main.go:214-223 | The average of the log. `Benchmark.FirstCycleAverage`, `Benchmark.AverageBound` and `Benchmark.TwoRoundExample` state its value. |
| Benchmark.FirstCycleAverage | main.go:214-223 | During the first cycle the average is the sum of slots 1 to the cursor divided by the cursor, that is, by the number of rounds after the first in this cycle; a round that records no rate counts as a zero slot. |
| Benchmark.AverageBound | main.go:214-223 | Unless the sum wraps around, the average never exceeds the largest rate in the log. |
| Benchmark.TwoRoundExample | main.go:201-223 | With 60 s intervals and 120 slots, two rounds 60,000,000 bytes apart put 1,000,000 in slot 1, and the average is 1,000,000. |
| Benchmark.WrappedSum | main.go:215-218 | The `uint64` sum of the log's slots is the true sum modulo 2^64. |
| Benchmark.Tracker.constructor | main.go:172-182 | A new tracker has one empty slot per interval of the period, the cursor at -1, the first cycle on, no previous size, a zero average and no batch running. |
| Benchmark.Tracker.Record | main.go:201-223 | The log advances in place exactly as `Advance` says, the tracker stays valid, and the average is recomputed from the new log. |
| Benchmark.Tracker.Shift | main.go:201-212 | The cursor, the written slot, the warm-up flag and the previous size change as `Advance` says. The average, the upload guard and the configuration stay as they were. |
| Benchmark.Tracker.Store | main.go:208-210 | The slot under the cursor gets the bytes per second of the last interval when the previous size is known and not above the current one. Otherwise the slots stay as they were. |
| Benchmark.Tracker.Recompute | main.go:214-223 | The average is recomputed as `Average` of the current log, and nothing else changes. |
| Benchmark.Tracker.Tick | main.go:183-313 | A failed collection changes nothing. Otherwise the round records the contract size. It exits (with status 0, stopping the node if so configured) iff the first cycle is over, the loop is not watching only and the verdict is not to continue. Otherwise it sweeps unless watching only, and starts exactly `WorkerCount` workers (setting the guard) iff the launch rule holds. |
| Benchmark.Tracker.BatchDone | main.go:310-311 | The end of a batch clears the upload guard and changes nothing else. |
| Benchmark.RunBatch | main.go:290-312 | Every worker attempts its upload whatever the others met. There is one error per worker whose create, fill or post fails. Each worker whose file gets written posts its own request (its file, the remote path of its name, the configured data and parity pieces) and no other request is made. Every new file a batch leaves behind was written by one of its workers, in that worker's directory, and every path that no worker writes is present afterwards iff it was present before. At a path only one worker draws, a file remains iff that worker created, filled and posted it without error; a worker whose create fails leaves the path as it was. |
| Benchmark.RunWorker | main.go:296-306 | One worker changes the file set only at its own file's path, reports an error exactly when its create, fill or post fails, and posts its own request exactly when its file gets written. A failed create leaves the files as they were. Otherwise its file exists afterwards iff the fill and the post both succeed, because a failed one removes it. |
| Benchmark.FileOutcomeStep | main.go:294-307 | One more worker keeps what earlier workers with unshared paths left at their paths, and settles its own path. |
| Benchmark.BatchFileOutcomes | main.go:290-312 | After a batch, at every path only one worker draws, there is a file iff that worker met no error, or, if its create failed, iff there was one before. |
| Benchmark.WrittenMembers | main.go:294-307 | A path is among the files the first workers write iff one of those workers writes it. |
| Benchmark.WrittenStep | main.go:294-307 | When one more worker changes the file set only at its own path, the batch's files still differ from the starting ones only at written paths and hold nothing else new. |
| Benchmark.BatchFiles | main.go:290-312 | After a batch, every new file is one worker's file, and a path that no worker writes is present iff it was present before. |
| Benchmark.RequestsCount | main.go:290-307 | The first `n` workers post exactly as many requests as there are workers among them whose file gets written. |
| Benchmark.RequestsMembers | main.go:290-307 | A request is posted by the first `n` workers iff it is the request of one of them whose file gets written. |
| Benchmark.BatchRequests | main.go:290-307 | A whole batch posts one request per worker whose file gets written, that worker's own request for its file and name, and no other. |
| Benchmark.WorkerFileNested | main.go:299 | A worker's file lies one level below the upload directory, so it is never the upload directory joined with a listed name. |

## Left out

- The Sia client calls (file and contract listings, wallet, renter, upload,
  file status, daemon stop and version) are foreign network calls. Their
  answers are inputs: `Result` values, or functions from remote path to
  answer.
- Loading the configuration, checking the upload directory, opening the CSV
  file and writing rows to it (`WriteCSV` and the panic when a write fails)
  are file I/O and are not modelled. `Tick` starts from the collected record.
- Logging, `formatData`, the efficiency percentage, the header line every 30
  rows and the zero-to-one substitution of the contract size are not
  modelled. The substitution only affects a log line.
- Goroutines and the wait group are not modelled. A batch runs its workers
  one after another (`RunBatch`), and the guard is cleared by a separate
  `BatchDone` step. The source's unsynchronised accesses to `uploading` and
  to the shared `err` variable are data races that a sequential model cannot
  show.
- Random numbers and bytes (worker directory numbers, name bytes, file
  content) are inputs of the stated shape. File content is not modelled,
  only the file's existence.
- The clock is an input: `time.Now`, the latency measured by `time.Since`,
  and the conversion to UTC. The row's latency text comes from
  `Duration.String`, a library formatter, which is a function parameter of
  `Values`.
- Go's `time.Duration` is an `int64` of nanoseconds. Its overflow for huge
  intervals is not modelled in `WakeTime`.
- Upload progress and health are `real`, not `float64`; NaN is not modelled.
- FileUploads.SiaPath: the validation inside the node library's path
  constructor, and the panic when it fails, are not modelled. The model
  takes the name's first two characters. The source takes its first two
  bytes and turns each into the character whose code point is the byte's
  value. The two agree only for names that begin with two ASCII
  characters. `FinishUploads` reads every name in the directory listing,
  not only the ASCII names the benchmark generates.
- FileUploads.FinishUploads requires every listed name to have at least two
  characters, because the source panics on a shorter name.
- FileUploads.UploadFile assumes that the clean-up removal after a failed
  fill or upload succeeds, because the source discards that removal's
  error.
- The daemon-stop request made on exit appears only as the `stopNode` flag
  of the outcome. Its error, which the source only logs, is not modelled.
- `os.Exit` is modelled as the `Exited` outcome of `Tick`.
- Benchmark.Tracker.constructor requires a positive interval and at least
  one slot. Otherwise the source panics: dividing by a zero interval when it
  sizes the log, or dividing by a zero length on the first successful
  round.
- Benchmark.RunBatch states the errors by count and not by text. It states
  what happens at a worker's path only when no other worker of the batch
  draws the same path. Two workers can draw the same directory number and
  name bytes, and then the later worker's outcome decides whether the
  shared path stays.
- The listing of the upload directory may come in any order. `ioutil.ReadDir`
  returns it sorted by name, which is one of the orders the model covers.
- The collector's record field `contractCountInactive` is never assigned and
  stays 0, as in the source. The two counts the collector does fill in,
  renewed and disabled, are extra fields of the record and are not columns
  of the row.
