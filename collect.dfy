/** One round of metric collection (collector/collect.go): the node's file
    list, its active and inactive contracts, its wallet and its renter
    settings are folded into one metrics record. The four node queries are
    inputs: each is either a value or the error the query returned. */
module Collect {
  import opened Common
  import opened Metrics

  /** What the node reports of one file. */
  datatype FileInfo = FileInfo(filesize: U64, uploadedBytes: U64, uploadProgress: real)

  /** What the node reports of one contract; `hostPublicKey` is the host
      key's string form. */
  datatype Contract = Contract(
    hostPublicKey: string,
    size: U64,
    fees: nat,
    storageSpending: nat,
    uploadSpending: nat,
    downloadSpending: nat,
    renterFunds: nat)

  datatype Contracts = Contracts(active: seq<Contract>, inactive: seq<Contract>)

  datatype Wallet = Wallet(confirmed: nat, unconfirmedOutgoing: nat, unconfirmedIncoming: nat)

  datatype Renter = Renter(
    allowanceFunds: nat,
    contractFees: nat,
    totalAllocated: nat,
    downloadSpending: nat,
    storageSpending: nat,
    uploadSpending: nat,
    unspent: nat)

  /** A Go slice holds fewer than 2^63 elements. */
  const MAX_LEN: int := 0x8000_0000_0000_0000

  // ---------------------------------------------------------------------
  // Files

  /** A file whose upload is complete: the collector's test is
      `UploadProgress < 100` for "in progress", and this is its negation. */
  predicate Finished(f: FileInfo) {
    f.uploadProgress >= 100.0
  }

  function InProgressCount(fs: seq<FileInfo>): (n: nat)
    ensures n <= |fs|
  {
    if fs == [] then 0
    else InProgressCount(fs[..|fs| - 1]) + (if Finished(fs[|fs| - 1]) then 0 else 1)
  }

  function FinishedCount(fs: seq<FileInfo>): (r: nat) {
    if fs == [] then 0
    else FinishedCount(fs[..|fs| - 1]) + (if Finished(fs[|fs| - 1]) then 1 else 0)
  }

  /** Bytes of the finished files only. */
  function FinishedBytes(fs: seq<FileInfo>): (r: nat) {
    if fs == [] then 0
    else FinishedBytes(fs[..|fs| - 1]) + (if Finished(fs[|fs| - 1]) then fs[|fs| - 1].filesize else 0)
  }

  /** Bytes uploaded so far, over every file. */
  function UploadedBytes(fs: seq<FileInfo>): (r: nat) {
    if fs == [] then 0 else UploadedBytes(fs[..|fs| - 1]) + fs[|fs| - 1].uploadedBytes
  }

  /** The file statistics of `m` once the file list `fs` has been folded in;
      the byte totals are `uint64` and wrap around. */
  function WithFiles(m: Metrics, fs: seq<FileInfo>): (r: Metrics)
    requires |fs| < MAX_LEN
  {
    m.(fileCount := |fs|,
       fileUploadedBytes := UploadedBytes(fs) % TWO_64,
       fileUploadsInProgressCount := InProgressCount(fs),
       fileTotalBytes := FinishedBytes(fs) % TWO_64)
  }

  // ---------------------------------------------------------------------
  // Contracts

  /** The set of host keys of `cs`. */
  function Hosts(cs: seq<Contract>): (r: set<string>) {
    if cs == [] then {} else Hosts(cs[..|cs| - 1]) + {cs[|cs| - 1].hostPublicKey}
  }

  /** Inactive contracts whose host also holds an active contract, in order. */
  function Renewed(hosts: set<string>, inactive: seq<Contract>): (r: seq<Contract>) {
    if inactive == [] then []
    else
      var c := inactive[|inactive| - 1];
      Renewed(hosts, inactive[..|inactive| - 1]) + (if c.hostPublicKey in hosts then [c] else [])
  }

  /** The other inactive contracts, in order. */
  function Disabled(hosts: set<string>, inactive: seq<Contract>): (r: seq<Contract>) {
    if inactive == [] then []
    else
      var c := inactive[|inactive| - 1];
      Disabled(hosts, inactive[..|inactive| - 1]) + (if c.hostPublicKey in hosts then [] else [c])
  }

  /** The five per-contract amounts the collector sums. */
  datatype Ledger = Fees | Storage | Upload | Download | Funds

  function Amount(c: Contract, l: Ledger): (r: nat) {
    match l
    case Fees => c.fees
    case Storage => c.storageSpending
    case Upload => c.uploadSpending
    case Download => c.downloadSpending
    case Funds => c.renterFunds
  }

  function Total(cs: seq<Contract>, l: Ledger): (r: nat) {
    if cs == [] then 0 else Total(cs[..|cs| - 1], l) + Amount(cs[|cs| - 1], l)
  }

  function Size(cs: seq<Contract>): (r: nat) {
    if cs == [] then 0 else Size(cs[..|cs| - 1]) + cs[|cs| - 1].size
  }

  /** The contract statistics of `m` once the contract lists are folded in. */
  function WithContracts(m: Metrics, c: Contracts): (r: Metrics) {
    var hosts := Hosts(c.active);
    var all := c.active + c.inactive;
    var fee, storage := Total(all, Fees), Total(all, Storage);
    var upload, download := Total(all, Upload), Total(all, Download);
    m.(contractCountActive := |c.active|,
       contractCountRenewed := |Renewed(hosts, c.inactive)|,
       contractCountDisabled := |Disabled(hosts, c.inactive)|,
       contractFeeSpending := fee,
       contractStorageSpending := storage,
       contractUploadSpending := upload,
       contractDownloadSpending := download,
       contractRemainingFunds := Total(all, Funds),
       contractTotalSize := Size(c.active + Disabled(hosts, c.inactive)) % TWO_64,
       contractTotalSpending := fee + storage + upload + download)
  }

  function WithWallet(m: Metrics, w: Wallet): (r: Metrics) {
    m.(walletSiacoinBalance := w.confirmed,
       walletOutgoingSiacoins := w.unconfirmedOutgoing,
       walletIncomingSiacoins := w.unconfirmedIncoming)
  }

  function WithRenter(m: Metrics, r: Renter): (out: Metrics) {
    m.(renterAllowance := r.allowanceFunds,
       renterContractFees := r.contractFees,
       renterTotalAllocated := r.totalAllocated,
       renterDownloadSpending := r.downloadSpending,
       renterStorageSpending := r.storageSpending,
       renterUploadSpending := r.uploadSpending,
       renterUnspent := r.unspent)
  }

  /** What one collection round yields: the record as far as it got and the
      first query error, if any. The sections are filled in query order and
      the latency only when every query succeeded. */
  function Collected(now: Time, files: Result<seq<FileInfo>>, contracts: Result<Contracts>,
                     wallet: Result<Wallet>, renter: Result<Renter>, latency: int): (r: (Metrics, Option<string>))
    requires files.Ok? ==> |files.value| < MAX_LEN
  {
    var m0 := Initial(now);
    if files.Err? then (m0, Some(files.error))
    else
      var m1 := WithFiles(m0, files.value);
      if contracts.Err? then (m1, Some(contracts.error))
      else
        var m2 := WithContracts(m1, contracts.value);
        if wallet.Err? then (m2, Some(wallet.error))
        else
          var m3 := WithWallet(m2, wallet.value);
          if renter.Err? then (m3, Some(renter.error))
          else (WithRenter(m3, renter.value).(apiLatency := latency), None)
  }

  /** `CollectMetrics`: the collector's loops, proved to compute `Collected`. */
  method CollectMetrics(now: Time, files: Result<seq<FileInfo>>, contracts: Result<Contracts>,
                        wallet: Result<Wallet>, renter: Result<Renter>, latency: int)
    returns (m: Metrics, err: Option<string>)
    requires files.Ok? ==> |files.value| < MAX_LEN
    ensures (m, err) == Collected(now, files, contracts, wallet, renter, latency)
  {
    m := Initial(now);

    // the file list
    if files.Err? {
      return m, Some(files.error);
    }
    var count, totalBytes, inProgress, uploaded := FileStats(files.value);
    m := m.(fileCount := count, fileTotalBytes := totalBytes,
            fileUploadsInProgressCount := inProgress, fileUploadedBytes := uploaded);
    ghost var m1 := m;

    // the contract lists
    if contracts.Err? {
      return m, Some(contracts.error);
    }
    var active, inactive := contracts.value.active, contracts.value.inactive;
    var activeHosts := ActiveHosts(active);
    var renewed, disabled := SplitInactive(activeHosts, inactive);
    var fee, storage, upload, download, funds := SumSpending(active + inactive);
    var size := SumSize(active + disabled);
    m := m.(contractCountActive := |active|,
            contractCountRenewed := |renewed|,
            contractCountDisabled := |disabled|,
            contractFeeSpending := fee,
            contractStorageSpending := storage,
            contractUploadSpending := upload,
            contractDownloadSpending := download,
            contractRemainingFunds := funds,
            contractTotalSize := size,
            contractTotalSpending := fee + storage + upload + download);
    assert m == WithContracts(m1, contracts.value);

    // the wallet
    if wallet.Err? {
      return m, Some(wallet.error);
    }
    m := WithWallet(m, wallet.value);

    // the renter settings
    if renter.Err? {
      return m, Some(renter.error);
    }
    m := WithRenter(m, renter.value);
    m := m.(apiLatency := latency);
    err := None;
  }

  /** The loop over the file list: count every file, add every file's
      uploaded bytes, and split the files into in-progress (counted) and
      finished (bytes added), with `uint64` arithmetic. */
  method FileStats(fs: seq<FileInfo>) returns (count: U64, totalBytes: U64, inProgress: U64, uploaded: U64)
    requires |fs| < MAX_LEN
    ensures count == |fs| && inProgress == InProgressCount(fs)
    ensures totalBytes == FinishedBytes(fs) % TWO_64 && uploaded == UploadedBytes(fs) % TWO_64
  {
    count, totalBytes, inProgress, uploaded := 0, 0, 0, 0;
    var i := 0;
    while i < |fs|
      invariant 0 <= i <= |fs| && count == i
      invariant inProgress == InProgressCount(fs[..i])
      invariant totalBytes == FinishedBytes(fs[..i]) % TWO_64
      invariant uploaded == UploadedBytes(fs[..i]) % TWO_64
    {
      var f := fs[i];
      assert fs[..i + 1][..i] == fs[..i];
      AddMod(UploadedBytes(fs[..i]), f.uploadedBytes);
      AddMod(FinishedBytes(fs[..i]), f.filesize);
      count := count + 1;
      uploaded := AddU64(uploaded, f.uploadedBytes);
      if f.uploadProgress < 100.0 {
        inProgress := inProgress + 1;
      } else {
        totalBytes := AddU64(totalBytes, f.filesize);
      }
      i := i + 1;
    }
    assert fs[..|fs|] == fs;
  }

  /** The set of hosts that hold an active contract. */
  method ActiveHosts(active: seq<Contract>) returns (hosts: set<string>)
    ensures hosts == Hosts(active)
  {
    hosts := {};
    var i := 0;
    while i < |active|
      invariant 0 <= i <= |active|
      invariant hosts == Hosts(active[..i])
    {
      assert active[..i + 1][..i] == active[..i];
      hosts := hosts + {active[i].hostPublicKey};
      i := i + 1;
    }
    assert active[..|active|] == active;
  }

  /** Breaks the inactive contracts out into renewed and disabled ones. */
  method SplitInactive(hosts: set<string>, inactive: seq<Contract>)
    returns (renewed: seq<Contract>, disabled: seq<Contract>)
    ensures renewed == Renewed(hosts, inactive) && disabled == Disabled(hosts, inactive)
  {
    renewed, disabled := [], [];
    var i := 0;
    while i < |inactive|
      invariant 0 <= i <= |inactive|
      invariant renewed == Renewed(hosts, inactive[..i])
      invariant disabled == Disabled(hosts, inactive[..i])
    {
      assert inactive[..i + 1][..i] == inactive[..i];
      if inactive[i].hostPublicKey in hosts {
        renewed := renewed + [inactive[i]];
      } else {
        disabled := disabled + [inactive[i]];
      }
      i := i + 1;
    }
    assert inactive[..|inactive| ] == inactive;
  }

  /** Sums the four spending amounts and the remaining funds of `cs`. */
  method SumSpending(cs: seq<Contract>) returns (fee: nat, storage: nat, upload: nat, download: nat, funds: nat)
    ensures fee == Total(cs, Fees) && storage == Total(cs, Storage)
    ensures upload == Total(cs, Upload) && download == Total(cs, Download)
    ensures funds == Total(cs, Funds)
  {
    fee, storage, upload, download, funds := 0, 0, 0, 0, 0;
    var i := 0;
    while i < |cs|
      invariant 0 <= i <= |cs|
      invariant fee == Total(cs[..i], Fees) && storage == Total(cs[..i], Storage)
      invariant upload == Total(cs[..i], Upload) && download == Total(cs[..i], Download)
      invariant funds == Total(cs[..i], Funds)
    {
      assert cs[..i + 1][..i] == cs[..i];
      var c := cs[i];
      fee, storage := fee + c.fees, storage + c.storageSpending;
      upload, download := upload + c.uploadSpending, download + c.downloadSpending;
      funds := funds + c.renterFunds;
      i := i + 1;
    }
    assert cs[..|cs|] == cs;
  }

  /** Sums the contract sizes of `cs` with `uint64` arithmetic. */
  method SumSize(cs: seq<Contract>) returns (size: U64)
    ensures size == Size(cs) % TWO_64
  {
    size := 0;
    var i := 0;
    while i < |cs|
      invariant 0 <= i <= |cs|
      invariant size == Size(cs[..i]) % TWO_64
    {
      assert cs[..i + 1][..i] == cs[..i];
      AddMod(Size(cs[..i]), cs[i].size);
      size := AddU64(size, cs[i].size);
      i := i + 1;
    }
    assert cs[..|cs|] == cs;
  }

  // ---------------------------------------------------------------------
  // What a collection round promises

  /** Every file is counted in exactly one bucket: in progress or finished. */
  lemma {:induction false} FileBuckets(fs: seq<FileInfo>)
    ensures InProgressCount(fs) + FinishedCount(fs) == |fs|
  {
    if fs != [] {
      FileBuckets(fs[..|fs| - 1]);
    }
  }

  lemma {:induction false} HostsHaveContract(cs: seq<Contract>, key: string)
    ensures key in Hosts(cs) <==> exists c :: c in cs && c.hostPublicKey == key
  {
    if cs != [] {
      var p := cs[..|cs| - 1];
      HostsHaveContract(p, key);
      assert forall c :: c in cs <==> c in p || c == cs[|cs| - 1];
    }
  }

  /** Renewed and disabled contracts split the inactive list: together they
      hold every inactive contract exactly once. */
  lemma {:induction false} InactivePartition(hosts: set<string>, inactive: seq<Contract>)
    ensures multiset(Renewed(hosts, inactive)) + multiset(Disabled(hosts, inactive)) == multiset(inactive)
    ensures |Renewed(hosts, inactive)| + |Disabled(hosts, inactive)| == |inactive|
  {
    if inactive != [] {
      var p := inactive[..|inactive| - 1];
      var c := inactive[|inactive| - 1];
      InactivePartition(hosts, p);
      assert inactive == p + [c];
      assert multiset(inactive) == multiset(p) + multiset{c};
      if c.hostPublicKey in hosts {
        assert Renewed(hosts, inactive) == Renewed(hosts, p) + [c];
        assert Disabled(hosts, inactive) == Disabled(hosts, p);
      } else {
        assert Renewed(hosts, inactive) == Renewed(hosts, p);
        assert Disabled(hosts, inactive) == Disabled(hosts, p) + [c];
      }
    }
  }

  /** An inactive contract is renewed iff its host holds an active contract,
      and disabled iff not. */
  lemma {:induction false} InactiveClassified(hosts: set<string>, inactive: seq<Contract>)
    ensures forall c :: c in Renewed(hosts, inactive) <==> c in inactive && c.hostPublicKey in hosts
    ensures forall c :: c in Disabled(hosts, inactive) <==> c in inactive && c.hostPublicKey !in hosts
  {
    if inactive != [] {
      var p := inactive[..|inactive| - 1];
      var c := inactive[|inactive| - 1];
      InactiveClassified(hosts, p);
      assert inactive == p + [c];
      assert forall x :: x in inactive <==> x in p || x == c;
    }
  }

  lemma {:induction false} TotalAppend(a: seq<Contract>, b: seq<Contract>, l: Ledger)
    ensures Total(a + b, l) == Total(a, l) + Total(b, l)
  {
    if b != [] {
      var ab := a + b;
      assert ab[..|ab| - 1] == a + b[..|b| - 1];
      assert ab[|ab| - 1] == b[|b| - 1];
      TotalAppend(a, b[..|b| - 1], l);
    } else {
      assert a + b == a;
    }
  }

  lemma {:induction false} SizeAppend(a: seq<Contract>, b: seq<Contract>)
    ensures Size(a + b) == Size(a) + Size(b)
  {
    if b != [] {
      var ab := a + b;
      assert ab[..|ab| - 1] == a + b[..|b| - 1];
      assert ab[|ab| - 1] == b[|b| - 1];
      SizeAppend(a, b[..|b| - 1]);
    } else {
      assert a + b == a;
    }
  }

  lemma {:induction false} SizeSplits(hosts: set<string>, inactive: seq<Contract>)
    ensures Size(Renewed(hosts, inactive)) + Size(Disabled(hosts, inactive)) == Size(inactive)
  {
    if inactive != [] {
      var p := inactive[..|inactive| - 1];
      var c := inactive[|inactive| - 1];
      SizeSplits(hosts, p);
      assert [c][..0] == [];
      assert Size([c]) == c.size;
      if c.hostPublicKey in hosts {
        assert Renewed(hosts, inactive) == Renewed(hosts, p) + [c];
        assert Disabled(hosts, inactive) == Disabled(hosts, p);
        SizeAppend(Renewed(hosts, p), [c]);
      } else {
        assert Renewed(hosts, inactive) == Renewed(hosts, p);
        assert Disabled(hosts, inactive) == Disabled(hosts, p) + [c];
        SizeAppend(Disabled(hosts, p), [c]);
      }
    }
  }

  /** The spending of one contract: fees plus storage, upload and download
      spending, but not the funds it still holds. */
  function Spent(c: Contract): (r: nat) {
    c.fees + c.storageSpending + c.uploadSpending + c.downloadSpending
  }

  function TotalSpent(cs: seq<Contract>): (r: nat) {
    if cs == [] then 0 else TotalSpent(cs[..|cs| - 1]) + Spent(cs[|cs| - 1])
  }

  lemma {:induction false} SpentSplits(cs: seq<Contract>)
    ensures TotalSpent(cs) == Total(cs, Fees) + Total(cs, Storage) + Total(cs, Upload) + Total(cs, Download)
  {
    if cs != [] {
      SpentSplits(cs[..|cs| - 1]);
    }
  }

  /** The file statistics of a round: every file is counted, the
      in-progress count and the finished files reconcile with the count, the
      finished bytes count finished files only and the uploaded bytes count
      every file (both modulo 2^64, as `uint64`). */
  lemma FileStatsReconcile(m: Metrics, fs: seq<FileInfo>)
    requires |fs| < MAX_LEN
    ensures WithFiles(m, fs).fileCount == |fs|
    ensures WithFiles(m, fs).fileUploadsInProgressCount + FinishedCount(fs) == WithFiles(m, fs).fileCount
    ensures WithFiles(m, fs).fileTotalBytes == FinishedBytes(fs) % TWO_64
    ensures WithFiles(m, fs).fileUploadedBytes == UploadedBytes(fs) % TWO_64
  {
    FileBuckets(fs);
  }

  /** The contract counts of a round: every active contract is counted, and
      the inactive ones split into renewed and disabled by host. */
  lemma ContractCountsReconcile(m: Metrics, c: Contracts)
    ensures WithContracts(m, c).contractCountActive == |c.active|
    ensures WithContracts(m, c).contractCountRenewed + WithContracts(m, c).contractCountDisabled
            == |c.inactive|
  {
    InactivePartition(Hosts(c.active), c.inactive);
  }

  /** The spending of a round: every total and the remaining funds run over
      active and inactive contracts alike, and the total spending is what
      each contract spent, its remaining funds excluded. */
  lemma ContractSpendingReconcile(m: Metrics, c: Contracts)
    ensures WithContracts(m, c).contractFeeSpending == Total(c.active, Fees) + Total(c.inactive, Fees)
    ensures WithContracts(m, c).contractRemainingFunds == Total(c.active, Funds) + Total(c.inactive, Funds)
    ensures WithContracts(m, c).contractTotalSpending == TotalSpent(c.active) + TotalSpent(c.inactive)
  {
    TotalAppend(c.active, c.inactive, Fees);
    TotalAppend(c.active, c.inactive, Storage);
    TotalAppend(c.active, c.inactive, Upload);
    TotalAppend(c.active, c.inactive, Download);
    TotalAppend(c.active, c.inactive, Funds);
    SpentSplits(c.active);
    SpentSplits(c.inactive);
  }

  /** The total size of a round counts active and disabled contracts but not
      renewed ones (modulo 2^64, as `uint64`). */
  lemma ContractSizeReconcile(m: Metrics, c: Contracts)
    ensures WithContracts(m, c).contractTotalSize
            == (Size(c.active) + Size(c.inactive) - Size(Renewed(Hosts(c.active), c.inactive))) % TWO_64
  {
    var hosts := Hosts(c.active);
    SizeAppend(c.active, Disabled(hosts, c.inactive));
    SizeSplits(hosts, c.inactive);
  }

  /** A failed query ends the round with its error: sections after it stay
      zero, the latency is never set, and only a round in which all four
      queries succeed reports no error. */
  lemma CollectedFailures(now: Time, files: Result<seq<FileInfo>>, contracts: Result<Contracts>,
                          wallet: Result<Wallet>, renter: Result<Renter>, latency: int)
    requires files.Ok? ==> |files.value| < MAX_LEN
    ensures var (m, err) := Collected(now, files, contracts, wallet, renter, latency);
      && (err == None <==> files.Ok? && contracts.Ok? && wallet.Ok? && renter.Ok?)
      && (files.Err? ==> err == Some(files.error) && m == Initial(now))
      && (files.Ok? && contracts.Err? ==>
            err == Some(contracts.error) && m == WithFiles(Initial(now), files.value))
      && (files.Ok? && contracts.Ok? && wallet.Err? ==>
            err == Some(wallet.error)
            && m == WithContracts(WithFiles(Initial(now), files.value), contracts.value))
      && (files.Ok? && contracts.Ok? && wallet.Ok? && renter.Err? ==>
            err == Some(renter.error)
            && m == WithWallet(WithContracts(WithFiles(Initial(now), files.value), contracts.value), wallet.value))
      && (err != None ==>
            && m.apiLatency == 0
            && m.renterAllowance == 0 && m.renterContractFees == 0 && m.renterTotalAllocated == 0
            && m.renterDownloadSpending == 0 && m.renterStorageSpending == 0
            && m.renterUploadSpending == 0 && m.renterUnspent == 0)
      && m.timestamp == now
  {
  }
}
