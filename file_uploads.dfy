/** The upload queue of the benchmark: the remote path a local file is
    uploaded under, the random local file name, the life of one local file
    through an upload, and the sweep that deletes local copies the node has
    finished storing.

    The local file system is a set of full paths. What the storage node and
    the operating system answer (creating, filling and removing a file, the
    upload request, the status of a remote file, the directory listing) is
    given to each operation as input. */
module FileUploads {
  import opened Common

  // ---------------------------------------------------------------------
  // Remote path

  /** The remote path of a local file: its first two characters become two
      directory levels above the full name, which spreads uploads over
      many small remote directories. */
  function SiaPath(name: string): (p: string)
    requires |name| >= 2
    ensures |p| == |name| + 4
  {
    [name[0]] + "/" + [name[1]] + "/" + name
  }

  /** The local name a remote path was derived from. */
  function NameOf(p: string): (r: string)
    requires |p| >= 4
  {
    p[4..]
  }

  /** A remote path is the two leading characters of its name as
      directories, then the name itself; so the name can be read back, and
      two different names never share a remote path. */
  lemma SiaPathShape(name: string)
    requires |name| >= 2
    ensures var p := SiaPath(name);
      && p[0] == name[0] && p[1] == '/' && p[2] == name[1] && p[3] == '/'
      && NameOf(p) == name
  {
  }

  lemma SiaPathInjective(a: string, b: string)
    requires |a| >= 2 && |b| >= 2
    ensures SiaPath(a) == SiaPath(b) <==> a == b
  {
    if SiaPath(a) == SiaPath(b) {
      SiaPathShape(a);
      SiaPathShape(b);
    }
  }

  // ---------------------------------------------------------------------
  // Random local name: lowercase hexadecimal, as in section 8 of RFC 4648

  const HexAlphabet: string := "0123456789abcdef"

  function HexDigit(v: int): (c: char)
    requires 0 <= v < 16
    ensures c in HexAlphabet
  {
    HexAlphabet[v]
  }

  /** The value of a lowercase hexadecimal digit, or None for any other
      character. */
  function HexValue(c: char): (r: Option<int>)
    ensures r.Some? <==> c in HexAlphabet
    ensures r.Some? ==> 0 <= r.value < 16 && HexDigit(r.value) == c
  {
    if '0' <= c <= '9' then Some(c as int - '0' as int)
    else if 'a' <= c <= 'f' then Some(c as int - 'a' as int + 10)
    else None
  }

  lemma HexValueOfDigit(v: int)
    requires 0 <= v < 16
    ensures HexValue(HexDigit(v)) == Some(v)
  {
  }

  /** The byte with the given high and low nibbles. */
  function Nibbles(hi: int, lo: int): (b: Byte)
    requires 0 <= hi < 16 && 0 <= lo < 16
    ensures b / 16 == hi && b % 16 == lo
  {
    var b := hi * 16 + lo;
    assert b == 16 * hi + lo;
    b
  }

  lemma NibblesOfByte(b: Byte)
    ensures Nibbles(b / 16, b % 16) == b
  {
  }

  /** Two digits per byte, high nibble first. */
  function HexEncode(bs: seq<Byte>): (s: string)
    ensures |s| == 2 * |bs|
    ensures forall i :: 0 <= i < |s| ==> s[i] in HexAlphabet
  {
    if bs == [] then []
    else [HexDigit(bs[0] / 16), HexDigit(bs[0] % 16)] + HexEncode(bs[1..])
  }

  /** The bytes a lowercase hexadecimal text stands for; None for a text of
      odd length or with any other character. */
  function HexDecode(s: string): (r: Option<seq<Byte>>)
    decreases |s|
  {
    if s == [] then Some([])
    else if |s| == 1 then None
    else
      match (HexValue(s[0]), HexValue(s[1]), HexDecode(s[2..]))
      case (Some(hi), Some(lo), Some(rest)) => Some([Nibbles(hi, lo)] + rest)
      case _ => None
  }

  /** Encoding and decoding are inverse in both directions: every byte
      string is recovered from its text, and a text that decodes is exactly
      the encoding of what it decodes to. */
  lemma {:induction false} HexRoundTrip(bs: seq<Byte>)
    ensures HexDecode(HexEncode(bs)) == Some(bs)
  {
    if bs != [] {
      var hi, lo := bs[0] / 16, bs[0] % 16;
      var s := HexEncode(bs);
      assert s[0] == HexDigit(hi) && s[1] == HexDigit(lo);
      assert s[2..] == HexEncode(bs[1..]);
      HexValueOfDigit(hi);
      HexValueOfDigit(lo);
      HexRoundTrip(bs[1..]);
      NibblesOfByte(bs[0]);
      assert HexDecode(s) == Some([Nibbles(hi, lo)] + bs[1..]);
      assert [bs[0]] + bs[1..] == bs;
    }
  }

  const NameBytes: nat := 16
  const Extension: string := ".dat"

  /** The local name of a new upload: 16 random bytes in hexadecimal, then
      the `.dat` extension. */
  function LocalName(random: seq<Byte>): (r: string)
    requires |random| == NameBytes
  {
    HexEncode(random) + Extension
  }

  /** A local name is 36 characters long, ends in `.dat`, has a remote path
      (it is long enough), and tells apart the random bytes it came from. */
  lemma LocalNameShape(random: seq<Byte>, other: seq<Byte>)
    requires |random| == NameBytes && |other| == NameBytes
    ensures |LocalName(random)| == 36
    ensures LocalName(random)[32..] == Extension
    ensures LocalName(random)[0] in HexAlphabet && LocalName(random)[1] in HexAlphabet
    ensures LocalName(random) == LocalName(other) <==> random == other
  {
    var a, b := HexEncode(random), HexEncode(other);
    assert LocalName(random)[..32] == a;
    assert LocalName(other)[..32] == b;
    if LocalName(random) == LocalName(other) {
      HexRoundTrip(random);
      HexRoundTrip(other);
    }
  }

  // ---------------------------------------------------------------------
  // Uploading one file

  /** What is asked of the node: upload the file at `source` to `siaPath`
      with the given erasure coding. */
  datatype UploadRequest = UploadRequest(source: string, siaPath: string, dataPieces: U64, parityPieces: U64)

  /** The result of each system call an upload makes; `None` is success. */
  datatype UploadEnv = UploadEnv(createErr: Option<string>, fillErr: Option<string>, postErr: Option<string>)

  function Join(dir: string, name: string): (r: string) {
    dir + "/" + name
  }

  /** Writes a file of random content named after `random` in `dir` and asks
      the node to upload it. A file that cannot be created leaves the
      directory as it was; a file that cannot be filled or uploaded is
      removed again; only an upload that was accepted leaves the file
      behind, for the sweep to remove once the node stores it. The upload
      is requested for the file just written, under the remote path of its
      name. */
  method UploadFile(local: set<string>, env: UploadEnv, dir: string, dataPieces: U64, parityPieces: U64,
                    size: U64, random: seq<Byte>)
    returns (after: set<string>, err: Option<string>, request: Option<UploadRequest>)
    requires |random| == NameBytes
    ensures var path := Join(dir, LocalName(random));
      && after - {path} == local - {path}
      && (env.createErr.Some? ==> after == local && err == env.createErr && request.None?)
      && (env.createErr.None? && env.fillErr.Some? ==>
            path !in after && err == env.fillErr && request.None?)
      && (env.createErr.None? && env.fillErr.None? ==>
            request == Some(UploadRequest(path, SiaPath(LocalName(random)), dataPieces, parityPieces))
            && err == env.postErr && (path in after <==> err.None?))
  {
    var name := LocalName(random);
    LocalNameShape(random, random);
    var path := Join(dir, name);
    if env.createErr.Some? {
      return local, env.createErr, None;
    }
    after := local + {path};
    if env.fillErr.Some? {
      after := after - {path};
      return after, env.fillErr, None;
    }
    request := Some(UploadRequest(path, SiaPath(name), dataPieces, parityPieces));
    if env.postErr.Some? {
      after := after - {path};
      return after, env.postErr, request;
    }
    err := None;
  }

  // ---------------------------------------------------------------------
  // Sweeping finished uploads

  /** The node's view of one uploaded file. */
  datatype FileStatus = FileStatus(uploadProgress: real, maxHealthPercent: real)

  /** Fully uploaded and fully healthy: the local copy is no longer needed. */
  predicate Done(s: FileStatus) {
    s.uploadProgress >= 100.0 && s.maxHealthPercent >= 100.0
  }

  /** Names the sweep can derive a remote path for. */
  predicate Named(names: seq<string>) {
    forall n :: n in names ==> |n| >= 2
  }

  function GetError(name: string, e: string): (r: string) {
    "error getting '" + name + "' from Sia: " + e
  }

  function RemoveError(path: string, e: string): (r: string) {
    "error removing '" + path + "': " + e
  }

  /** Whether handling `name` ends the sweep: its status cannot be read, or
      it is done and its local copy cannot be removed. */
  predicate Fails(dir: string, name: string, status: string -> Result<FileStatus>,
                  remove: string -> Option<string>)
    requires |name| >= 2
  {
    var st := status(SiaPath(name));
    st.Err? || (Done(st.value) && remove(Join(dir, name)).Some?)
  }

  /** The sweep over listed names, in listing order: the local files left and
      the first error, if any. */
  function Sweep(local: set<string>, dir: string, names: seq<string>,
                 status: string -> Result<FileStatus>, remove: string -> Option<string>): (r: (set<string>, Option<string>))
    requires Named(names)
    decreases |names|
  {
    if names == [] then (local, None)
    else
      var name := names[0];
      var st := status(SiaPath(name));
      if st.Err? then (local, Some(GetError(name, st.error)))
      else if !Done(st.value) then Sweep(local, dir, names[1..], status, remove)
      else
        var path := Join(dir, name);
        var e := remove(path);
        if e.Some? then (local, Some(RemoveError(path, e.value)))
        else Sweep(local - {path}, dir, names[1..], status, remove)
  }

  /** Reads the upload directory and removes every listed file whose remote
      copy is done, stopping at the first error. A directory that cannot be
      listed is reported and nothing is removed. */
  method FinishUploads(local: set<string>, dir: string, listing: Result<seq<string>>,
                       status: string -> Result<FileStatus>, remove: string -> Option<string>)
    returns (after: set<string>, err: Option<string>)
    requires listing.Ok? ==> Named(listing.value)
    ensures listing.Err? ==> after == local && err == Some(listing.error)
    ensures listing.Ok? ==> (after, err) == Sweep(local, dir, listing.value, status, remove)
  {
    if listing.Err? {
      return local, Some(listing.error);
    }
    var names := listing.value;
    after := local;
    var i := 0;
    while i < |names|
      invariant 0 <= i <= |names|
      invariant Sweep(local, dir, names, status, remove) == Sweep(after, dir, names[i..], status, remove)
    {
      assert names[i..][1..] == names[i + 1..];
      var name := names[i];
      var st := status(SiaPath(name));
      if st.Err? {
        return after, Some(GetError(name, st.error));
      }
      if Done(st.value) {
        var path := Join(dir, name);
        var e := remove(path);
        if e.Some? {
          return after, Some(RemoveError(path, e.value));
        }
        after := after - {path};
      }
      i := i + 1;
    }
    err := None;
  }

  /** How many listed names the sweep gets through before the one that
      stops it (all of them when none does). */
  function Stop(dir: string, names: seq<string>, status: string -> Result<FileStatus>,
                remove: string -> Option<string>): (k: nat)
    requires Named(names)
    ensures k <= |names|
    ensures forall j :: 0 <= j < k ==> !Fails(dir, names[j], status, remove)
    ensures k < |names| ==> Fails(dir, names[k], status, remove)
  {
    if names == [] then 0
    else if Fails(dir, names[0], status, remove) then 0
    else 1 + Stop(dir, names[1..], status, remove)
  }

  /** The local paths of the listed names whose remote copy is done. */
  function DonePaths(dir: string, names: seq<string>, status: string -> Result<FileStatus>): (r: set<string>)
    requires Named(names)
  {
    if names == [] then {}
    else
      var st := status(SiaPath(names[0]));
      (if st.Ok? && Done(st.value) then {Join(dir, names[0])} else {})
      + DonePaths(dir, names[1..], status)
  }

  lemma {:induction false} DonePathsMembers(dir: string, names: seq<string>,
                                            status: string -> Result<FileStatus>, p: string)
    requires Named(names)
    ensures p in DonePaths(dir, names, status)
            <==> (exists j :: 0 <= j < |names| && p == Join(dir, names[j])
                   && status(SiaPath(names[j])).Ok? && Done(status(SiaPath(names[j])).value))
  {
    if names != [] {
      DonePathsMembers(dir, names[1..], status, p);
      if exists j :: 0 <= j < |names[1..]| && p == Join(dir, names[1..][j])
           && status(SiaPath(names[1..][j])).Ok? && Done(status(SiaPath(names[1..][j])).value) {
        var j :| 0 <= j < |names[1..]| && p == Join(dir, names[1..][j])
                 && status(SiaPath(names[1..][j])).Ok? && Done(status(SiaPath(names[1..][j])).value);
        assert names[1..][j] == names[j + 1];
      }
      if exists j :: 0 <= j < |names| && p == Join(dir, names[j])
           && status(SiaPath(names[j])).Ok? && Done(status(SiaPath(names[j])).value) {
        var j :| 0 <= j < |names| && p == Join(dir, names[j])
                 && status(SiaPath(names[j])).Ok? && Done(status(SiaPath(names[j])).value);
        if j > 0 {
          assert names[1..][j - 1] == names[j];
        }
      }
    }
  }

  /** What a sweep does, stated without replaying it: it reports an error
      exactly when some name stops it, that error is about the stopping
      name, and it removes exactly the done files listed before that name,
      leaving every other local file in place. */
  lemma SweepOutcome(local: set<string>, dir: string, names: seq<string>,
                     status: string -> Result<FileStatus>, remove: string -> Option<string>)
    requires Named(names)
    ensures var (after, err) := Sweep(local, dir, names, status, remove);
      var k := Stop(dir, names, status, remove);
      && (err.None? <==> k == |names|)
      && (k < |names| && status(SiaPath(names[k])).Err? ==>
            err == Some(GetError(names[k], status(SiaPath(names[k])).error)))
      && (k < |names| && status(SiaPath(names[k])).Ok? ==>
            err == Some(RemoveError(Join(dir, names[k]), remove(Join(dir, names[k])).value)))
      && after == local - DonePaths(dir, names[..k], status)
  {
    SweepError(local, dir, names, status, remove);
    SweepRemoves(local, dir, names, status, remove);
  }

  /** The error a sweep reports is about the name that stops it. */
  lemma {:induction false} SweepError(local: set<string>, dir: string, names: seq<string>,
                                      status: string -> Result<FileStatus>, remove: string -> Option<string>)
    requires Named(names)
    ensures var err := Sweep(local, dir, names, status, remove).1;
      var k := Stop(dir, names, status, remove);
      && (err.None? <==> k == |names|)
      && (k < |names| && status(SiaPath(names[k])).Err? ==>
            err == Some(GetError(names[k], status(SiaPath(names[k])).error)))
      && (k < |names| && status(SiaPath(names[k])).Ok? ==>
            err == Some(RemoveError(Join(dir, names[k]), remove(Join(dir, names[k])).value)))
    decreases |names|
  {
    if names != [] {
      var k := Stop(dir, names, status, remove);
      if k > 0 {
        var st := status(SiaPath(names[0]));
        var next := if Done(st.value) then local - {Join(dir, names[0])} else local;
        SweepError(next, dir, names[1..], status, remove);
        assert Stop(dir, names[1..], status, remove) == k - 1;
        if k < |names| {
          assert names[1..][k - 1] == names[k];
        }
      }
    }
  }

  /** A sweep removes exactly the done files listed before the name that
      stops it. */
  lemma {:induction false} SweepRemoves(local: set<string>, dir: string, names: seq<string>,
                                        status: string -> Result<FileStatus>, remove: string -> Option<string>)
    requires Named(names)
    ensures Sweep(local, dir, names, status, remove).0
            == local - DonePaths(dir, names[..Stop(dir, names, status, remove)], status)
    decreases |names|
  {
    if names != [] {
      var k := Stop(dir, names, status, remove);
      if k > 0 {
        var st := status(SiaPath(names[0]));
        var next := if Done(st.value) then local - {Join(dir, names[0])} else local;
        SweepRemoves(next, dir, names[1..], status, remove);
        assert Stop(dir, names[1..], status, remove) == k - 1;
        assert names[..k][1..] == names[1..][..k - 1];
        assert names[..k][0] == names[0];
      }
    }
  }
}
