/** Fetching a model repository file by file, resuming what an earlier attempt left behind. */
module Download {
  import opened Text
  import opened Wire

  // --- What the outside world does during one attempt ---

  datatype End = More | Eof | Failure

  datatype Write = Whole | Short(written: nat)

  /** One read of a response body and what the write of its bytes came to. */
  datatype Read = Read(data: Bytes, end: End, write: Write)

  /** The server's answer to one GET. `parts` that stop without an end stand for an agent
      killed at that point. */
  datatype Answer = Refused | Answer(code: int, opens: bool, parts: seq<Read>)

  datatype Attempt = Attempt(
    listing: Option<seq<string>>, // the repository's files, None when listing fails
    destMade: bool,
    size: string -> Option<int>, // the HEAD answer: None on failure, -1 without a length
    made: (nat, string) -> bool, // the parent directory can be made
    seen: (nat, string) -> bool, // an existing local file can be examined
    answer: (nat, string, nat) -> Answer) // by file number, name and first byte asked for

  datatype Status = Transferring | Completed | Failed

  datatype Report = Report(bytes: int, total: int, status: Status)

  // --- Choosing the files ---

  predicate IsGguf(f: string) {
    HasSuffix(Lower(f), ".gguf")
  }

  predicate Matches(f: string, quantization: string) {
    IsGguf(f) && Contains(f, quantization)
  }

  datatype Selection = Missing(available: seq<string>) | Ambiguous(matched: seq<string>) | Selected(file: string)

  /** The one .gguf file the quantization names; none or several is an error. */
  method SelectQuantizedFile(files: seq<string>, quantization: string) returns (r: Selection)
    ensures r.Missing? ==> forall f :: f in r.available <==> f in files && IsGguf(f)
    ensures r.Missing? <==> forall f :: f in files ==> !Matches(f, quantization)
    ensures r.Ambiguous? <==> TwoMatch(files, quantization)
    ensures r.Selected? ==> Matching(files, quantization) == [r.file] && r.file in files && Matches(r.file, quantization)
    ensures !r.Selected? ==> |Matching(files, quantization)| != 1
  {
    hide IsGguf, Contains;
    var gguf, matches := [], [];
    for n := 0 to |files|
      invariant forall f :: f in gguf <==> f in files[..n] && IsGguf(f)
      invariant matches == Matching(files[..n], quantization)
    {
      assert files[..n + 1] == files[..n] + [files[n]];
      assert files[..n + 1][..n] == files[..n];
      if IsGguf(files[n]) {
        gguf := gguf + [files[n]];
        if Contains(files[n], quantization) {
          matches := matches + [files[n]];
        }
      }
    }
    assert files[..|files|] == files;
    MatchingCounts(files, quantization);
    assert matches != [] ==> matches[0] in matches && matches[0] in files;
    match |matches|
    case 0 => r := Missing(gguf);
    case 1 => r := Selected(matches[0]);
    case _ => r := Ambiguous(matches);
  }

  function Matching(files: seq<string>, quantization: string): seq<string> {
    if files == [] then []
    else
      var f := files[|files| - 1];
      Matching(files[..|files| - 1], quantization) + if Matches(f, quantization) then [f] else []
  }

  ghost predicate TwoMatch(files: seq<string>, quantization: string) {
    exists i, j :: 0 <= i < j < |files| && Matches(files[i], quantization) && Matches(files[j], quantization)
  }

  /** No, exactly one, or several entries of the listing match, as the number collected says. */
  lemma {:induction false} MatchingCounts(files: seq<string>, quantization: string)
    ensures forall f :: f in Matching(files, quantization) <==> f in files && Matches(f, quantization)
    ensures |Matching(files, quantization)| >= 2 <==> TwoMatch(files, quantization)
  {
    hide Matches;
    if files != [] {
      var n := |files| - 1;
      var init := files[..n];
      MatchingCounts(init, quantization);
      assert files == init + [files[n]];
      if TwoMatch(init, quantization) {
        var i, j :| 0 <= i < j < n && Matches(init[i], quantization) && Matches(init[j], quantization);
        assert files[i] == init[i] && files[j] == init[j];
      } else if Matching(init, quantization) != [] && Matches(files[n], quantization) {
        assert Matching(init, quantization)[0] in init;
        var i :| 0 <= i < n && init[i] == Matching(init, quantization)[0];
        assert Matches(files[i], quantization);
      } else {
        forall i, j | 0 <= i < j < |files|
          ensures !(Matches(files[i], quantization) && Matches(files[j], quantization))
        {
          assert files[i] == init[i] && init[i] in init;
          assert j < n ==> files[j] == init[j];
        }
      }
    }
  }

  /** Every file without a quantization, otherwise the only match. */
  function Choice(files: seq<string>, quantization: string): Option<seq<string>> {
    if quantization == "" then Some(files)
    else
      var m := Matching(files, quantization);
      if |m| == 1 then Some(m) else None
  }

  // --- What one attempt leaves on disk ---

  datatype Outcome = Outcome(file: Option<Bytes>, n: int, ok: bool)

  /** Read, write, repeat until the body ends or something fails. */
  function Pump(file: Bytes, n: int, parts: seq<Read>): Outcome
    decreases |parts|
  {
    if parts == [] then Outcome(Some(file), n, false)
    else
      var r := parts[0];
      if r.data != [] && r.write.Short? then Outcome(Some(file + r.data[..Min(r.write.written, |r.data|)]), n, false)
      else
        var file', n' := file + r.data, n + |r.data|;
        match r.end
        case Eof => Outcome(Some(file'), n', true)
        case Failure => Outcome(Some(file'), n', false)
        case More => Pump(file', n', parts[1..])
  }

  /** The first byte to ask for: where a shorter local file ends, otherwise the beginning. */
  function Offset(local: Option<Bytes>, size: int, seen: bool): nat {
    if seen && local.Some? && |local.value| < size then |local.value| else 0
  }

  predicate Complete(local: Option<Bytes>, size: int, seen: bool) {
    seen && local.Some? && |local.value| == size
  }

  function FileAfter(a: Attempt, i: nat, f: string, size: int, local: Option<Bytes>): Outcome {
    if !a.made(i, f) then Outcome(local, 0, false)
    else if Complete(local, size, a.seen(i, f)) then Outcome(local, size, true)
    else
      var offset := Offset(local, size, a.seen(i, f));
      match a.answer(i, f, offset)
      case Refused => Outcome(local, 0, false)
      case Answer(code, opens, parts) =>
        if code == 206 && opens && local.Some? then Pump(local.value, offset, parts)
        else if code == 200 && opens then Pump([], 0, parts)
        else Outcome(local, 0, false)
  }

  function Lookup(disk: map<string, Bytes>, p: string): Option<Bytes> {
    if p in disk then Some(disk[p]) else None
  }

  datatype Result = Result(disk: map<string, Bytes>, bytes: int, ok: bool)

  function AfterFile(disk: map<string, Bytes>, a: Attempt, path: string -> string, i: nat, f: string,
      size: int): Result {
    var o := FileAfter(a, i, f, size, Lookup(disk, path(f)));
    Result(if o.file.Some? then disk[path(f) := o.file.value] else disk, o.n, o.ok)
  }

  function AfterFiles(disk: map<string, Bytes>, a: Attempt, path: string -> string, names: seq<string>, i: nat): Result
    requires i <= |names| && SizesKnown(a, names)
    decreases |names| - i
  {
    if i == |names| then Result(disk, 0, true)
    else
      assert names[i] in names;
      var o := AfterFile(disk, a, path, i, names[i], a.size(names[i]).value);
      if !o.ok then o
      else
        var rest := AfterFiles(o.disk, a, path, names, i + 1);
        rest.(bytes := o.bytes + rest.bytes)
  }

  predicate SizesKnown(a: Attempt, names: seq<string>) {
    forall f :: f in names ==> a.size(f).Some?
  }

  /** What is to be fetched, or None when the attempt fails before the first file. */
  function Plan(a: Attempt, quantization: string): (names: Option<seq<string>>)
    ensures names.Some? ==> SizesKnown(a, names.value)
  {
    if a.listing == None || Choice(a.listing.value, quantization) == None || !a.destMade then None
    else
      var names := Choice(a.listing.value, quantization).value;
      if SizesKnown(a, names) then Some(names) else None
  }

  function AfterAttempt(disk: map<string, Bytes>, a: Attempt, path: string -> string, quantization: string): Result {
    match Plan(a, quantization)
    case None => Result(disk, 0, false)
    case Some(names) => AfterFiles(disk, a, path, names, 0)
  }

  function SumSizes(a: Attempt, names: seq<string>): int
    requires SizesKnown(a, names)
  {
    if names == [] then 0
    else
      assert names[|names| - 1] in names;
      SumSizes(a, names[..|names| - 1]) + a.size(names[|names| - 1]).value
  }

  // --- The downloader itself ---

  /** Interim reports of one file: never falling, within what was there before and what is there
      after, and no more of them than the bytes pay for. */
  ghost predicate Throttled(reports: seq<Report>, before: int, n: int, total: int, threshold: nat) {
    && Interim(reports, before, before + n, total)
    && NonDecreasing(reports)
    && Paid(|reports|, threshold, n)
  }

  ghost predicate Interim(reports: seq<Report>, low: int, high: int, total: int) {
    forall i :: 0 <= i < |reports| ==>
      reports[i].status == Transferring && reports[i].total == total && low <= reports[i].bytes <= high
  }

  ghost predicate NonDecreasing(reports: seq<Report>) {
    forall i, j :: 0 <= i <= j < |reports| ==> reports[i].bytes <= reports[j].bytes
  }

  ghost predicate Paid(count: nat, threshold: nat, n: int) {
    count * threshold <= n
  }

  lemma PaidMore(c: nat, d: nat, threshold: nat, m: int, n: int)
    requires Paid(c, threshold, m) && Paid(d, threshold, n)
    ensures Paid(c + d, threshold, m + n) && 0 <= n
  {
    assert (c + d) * threshold == c * threshold + d * threshold;
  }

  lemma PaidOne(c: nat, threshold: nat, n: int, since: int)
    requires Paid(c, threshold, n - since) && since >= threshold
    ensures Paid(c + 1, threshold, n)
  {
    assert (c + 1) * threshold == c * threshold + threshold;
  }

  /** The bytes last reported, or those there were before any report. */
  ghost function LastTold(reports: seq<Report>, start: int): int {
    if reports == [] then start else reports[|reports| - 1].bytes
  }

  lemma ToldLast(reports: seq<Report>, r: Report, start: int)
    ensures LastTold([], start) == start && LastTold(reports + [r], start) == r.bytes
  {
  }

  class Executor {
    const progressBytes: nat
    const path: string -> string
    var disk: map<string, Bytes>

    constructor (progressBytes: nat, path: string -> string, disk: map<string, Bytes>)
      ensures this.progressBytes == progressBytes && this.path == path && this.disk == disk
    {
      this.progressBytes, this.path, this.disk := progressBytes, path, disk;
    }

    method DownloadFile(a: Attempt, i: nat, f: string, size: int, before: int, total: int)
      returns (n: int, ok: bool, reports: seq<Report>)
      modifies this`disk
      ensures Result(disk, n, ok) == AfterFile(old(disk), a, path, i, f, size)
      ensures Throttled(reports, before, n, total, progressBytes)
    {
      n, ok, reports := 0, false, [];
      var p := path(f);
      if !a.made(i, f) {
        assert Lookup(disk, p).Some? ==> disk[p := disk[p]] == disk;
        return;
      }
      var offset := 0;
      if p in disk && a.seen(i, f) {
        if |disk[p]| == size {
          assert disk[p := disk[p]] == disk;
          n, ok := size, true;
          return;
        } else if |disk[p]| < size {
          offset := |disk[p]|;
        }
      }
      var answer := a.answer(i, f, offset);
      assert p in disk ==> disk[p := disk[p]] == disk;
      if answer.Refused? || answer.code !in {200, 206} || !answer.opens || (answer.code == 206 && p !in disk) {
        return;
      }
      if answer.code == 200 {
        offset := 0;
        disk := disk[p := []];
      }
      n, ok, reports := Copy(p, answer.parts, offset, before, total);
    }

    /** The copy loop: appends to the open file and reports every `progressBytes` bytes. */
    method Copy(p: string, parts: seq<Read>, offset: nat, before: int, total: int)
      returns (n: int, ok: bool, reports: seq<Report>)
      requires p in disk
      modifies this`disk
      ensures p in disk && disk == old(disk)[p := disk[p]]
      ensures Outcome(Some(disk[p]), n, ok) == Pump(old(disk[p]), offset, parts)
      ensures Throttled(reports, before, n, total, progressBytes)
      // No report is put off once its bytes have come in.
      ensures progressBytes > 0 ==> before + n - LastTold(reports, before + offset) < progressBytes
    {
      hide Throttled, Paid, NonDecreasing, Interim, LastTold;
      ToldLast([], Report(0, 0, Failed), before + offset);
      n, ok, reports := offset, false, [];
      var since := 0;
      var k := 0;
      NoReports(before, offset, total, progressBytes);
      while k < |parts|
        invariant 0 <= k <= |parts| && p in disk && disk == old(disk)[p := disk[p]]
        invariant !ok && Pump(disk[p], n, parts[k..]) == Pump(old(disk[p]), offset, parts)
        invariant 0 <= since && Throttled(reports, before, n - since, total, progressBytes)
        invariant since == before + n - LastTold(reports, before + offset)
        invariant progressBytes > 0 ==> since < progressBytes
      {
        var r := parts[k];
        assert parts[k..][0] == r && parts[k..][1..] == parts[k + 1..];
        if r.data != [] {
          if r.write.Short? {
            disk := disk[p := disk[p] + r.data[..Min(r.write.written, |r.data|)]];
            ThrottledLater(reports, before, n - since, n, total, progressBytes);
            return;
          }
          disk := disk[p := disk[p] + r.data];
          n := n + |r.data|;
          since := since + |r.data|;
          if since >= progressBytes {
            ThrottledOne(reports, before, n, since, total, progressBytes);
            ToldLast(reports, Report(before + n, total, Transferring), before + offset);
            reports := reports + [Report(before + n, total, Transferring)];
            since := 0;
          }
        } else {
          assert disk[p] + r.data == disk[p];
        }
        if r.end == Eof {
          ok := true;
          ThrottledLater(reports, before, n - since, n, total, progressBytes);
          return;
        }
        if r.end == Failure {
          ThrottledLater(reports, before, n - since, n, total, progressBytes);
          return;
        }
        k := k + 1;
      }
      ThrottledLater(reports, before, n - since, n, total, progressBytes);
    }

    method Download(a: Attempt, quantization: string) returns (ok: bool, reports: seq<Report>)
      modifies this`disk
      ensures AfterAttempt(old(disk), a, path, quantization).disk == disk
      ensures AfterAttempt(old(disk), a, path, quantization).ok == ok
      ensures Plan(a, quantization) == None ==> !ok && reports == [Report(0, 0, Failed)]
      ensures Plan(a, quantization).Some? ==>
                Told(reports, AfterAttempt(old(disk), a, path, quantization).bytes,
                     SumSizes(a, Plan(a, quantization).value), progressBytes, ok)
    {
      ok, reports := false, [Report(0, 0, Failed)];
      if a.listing == None {
        return;
      }
      var names := a.listing.value;
      if quantization != "" {
        var selection := SelectQuantizedFile(names, quantization);
        if !selection.Selected? {
          return;
        }
        names := [selection.file];
      }
      if !a.destMade {
        return;
      }
      var total := 0;
      for i := 0 to |names|
        invariant SizesKnown(a, names[..i]) && total == SumSizes(a, names[..i])
      {
        assert names[..i + 1][..i] == names[..i] && names[..i + 1][i] == names[i];
        if a.size(names[i]) == None {
          assert names[i] in names;
          return;
        }
        total := total + a.size(names[i]).value;
      }
      assert names[..|names|] == names;
      assert Plan(a, quantization) == Some(names);
      ok, reports := Fetch(a, names, total);
    }

    /** The loop over the chosen files, once their sizes are known. */
    method Fetch(a: Attempt, names: seq<string>, total: int) returns (ok: bool, reports: seq<Report>)
      requires SizesKnown(a, names)
      modifies this`disk
      ensures Told(reports, AfterFiles(old(disk), a, path, names, 0).bytes, total, progressBytes, ok)
      ensures disk == AfterFiles(old(disk), a, path, names, 0).disk && ok == AfterFiles(old(disk), a, path, names, 0).ok
    {
      hide AfterFile, Throttled, Told;
      reports := [];
      var bytes := 0;
      NoReports(0, 0, total, progressBytes);
      ghost var start := disk;
      var i := 0;
      while i < |names|
        invariant 0 <= i <= |names|
        invariant Rest(AfterFiles(disk, a, path, names, i), bytes) == AfterFiles(start, a, path, names, 0)
        invariant Throttled(reports, 0, bytes, total, progressBytes)
      {
        assert names[i] in names;
        var n, fine, more := DownloadFile(a, i, names[i], a.size(names[i]).value, bytes, total);
        ThrottledMore(reports, more, bytes, n, total, progressBytes);
        reports := reports + more;
        bytes := bytes + n;
        if !fine {
          AllTold(reports, bytes, total, progressBytes, Failed);
          reports := [Report(0, total, Transferring)] + reports + [Report(bytes, total, Failed)];
          ok := false;
          return;
        }
        i := i + 1;
      }
      AllTold(reports, bytes, total, progressBytes, Completed);
      reports := [Report(0, total, Transferring)] + reports + [Report(bytes, total, Completed)];
      ok := true;
    }
  }

  ghost function Rest(r: Result, bytes: int): Result {
    r.(bytes := bytes + r.bytes)
  }

  /** Exactly one terminal report, the last, and it tells how the attempt ended. */
  ghost predicate OneEnding(reports: seq<Report>, ok: bool) {
    && reports != []
    && (forall i :: 0 <= i < |reports| - 1 ==> reports[i].status == Transferring)
    && reports[|reports| - 1].status == (if ok then Completed else Failed)
  }

  /** All an attempt that reached its first file reports: it announces the total first, never
      falls, ends once, and sends at most one interim report per `threshold` bytes. */
  ghost predicate Told(reports: seq<Report>, bytes: int, total: int, threshold: nat, ok: bool) {
    && |reports| >= 2
    && reports[0] == Report(0, total, Transferring)
    && (forall i :: 0 <= i < |reports| ==> reports[i].total == total)
    && NonDecreasing(reports) && OneEnding(reports, ok)
    && reports[|reports| - 1].bytes == bytes
    && (|reports| - 2) * threshold <= bytes
  }

  lemma NoReports(before: int, n: nat, total: int, threshold: nat)
    ensures Throttled([], before, n, total, threshold)
  {
  }

  lemma ThrottledLater(rs: seq<Report>, before: int, m: int, n: int, total: int, threshold: nat)
    requires Throttled(rs, before, m, total, threshold) && m <= n
    ensures Throttled(rs, before, n, total, threshold)
  {
  }

  lemma ThrottledOne(rs: seq<Report>, before: int, n: int, since: int, total: int, threshold: nat)
    requires Throttled(rs, before, n - since, total, threshold) && since >= threshold
    ensures Throttled(rs + [Report(before + n, total, Transferring)], before, n, total, threshold)
  {
    PaidOne(|rs|, threshold, n, since);
    assert 0 <= |rs| * threshold;
  }

  lemma ThrottledMore(rs: seq<Report>, more: seq<Report>, bytes: int, n: int, total: int, threshold: nat)
    requires Throttled(rs, 0, bytes, total, threshold) && Throttled(more, bytes, n, total, threshold)
    ensures Throttled(rs + more, 0, bytes + n, total, threshold) && 0 <= n
  {
    hide Paid;
    PaidMore(|rs|, |more|, threshold, bytes, n);
    PaidIsNatural(|rs|, threshold, bytes);
    forall i, j | 0 <= i <= j < |rs + more| ensures (rs + more)[i].bytes <= (rs + more)[j].bytes {
    }
  }

  lemma PaidIsNatural(c: nat, threshold: nat, n: int)
    requires Paid(c, threshold, n)
    ensures 0 <= n
  {
  }

  lemma AllTold(rs: seq<Report>, bytes: int, total: int, threshold: nat, status: Status)
    requires status != Transferring && Throttled(rs, 0, bytes, total, threshold)
    ensures Told([Report(0, total, Transferring)] + rs + [Report(bytes, total, status)], bytes, total, threshold, status == Completed)
  {
    PaidIsNatural(|rs|, threshold, bytes);
    var all := [Report(0, total, Transferring)] + rs + [Report(bytes, total, status)];
    assert |all| - 2 == |rs|;
    assert forall i :: 1 <= i < |all| - 1 ==> all[i] == rs[i - 1];
  }

  // --- What the network may do: cut a body anywhere, but never invent bytes ---

  ghost predicate HonestReads(parts: seq<Read>, rest: Bytes) {
    parts != [] ==>
      && parts[0].data <= rest
      && (parts[0].end == Eof ==> parts[0].data == rest)
      && (parts[0].end == More ==> HonestReads(parts[1..], rest[|parts[0].data|..]))
  }

  /** 206 only for a range asked for, and then that range (sections 14.2 and 15.3.7 of RFC 9110);
      200 is the whole body, asked for or not. The body's end is seen only after all of it. */
  ghost predicate HonestAnswer(v: Answer, body: Bytes, offset: nat) {
    v.Answer? ==>
      && (v.code == 200 ==> HonestReads(v.parts, body))
      && (v.code == 206 ==> 0 < offset <= |body| && HonestReads(v.parts, body[offset..]))
  }

  ghost predicate Honest(a: Attempt, remote: string -> Bytes) {
    && (forall f :: a.size(f).Some? ==> a.size(f).value == -1 || a.size(f).value == |remote(f)|)
    && (forall i, f, offset :: HonestAnswer(a.answer(i, f, offset), remote(f), offset))
  }

  /** Each local file is the beginning of its remote file. */
  ghost predicate AllPrefixes(disk: map<string, Bytes>, path: string -> string, remote: string -> Bytes) {
    forall f :: path(f) in disk ==> disk[path(f)] <= remote(f)
  }

  ghost predicate OneFilePerPath(path: string -> string, remote: string -> Bytes) {
    forall f, g :: path(f) == path(g) ==> remote(f) == remote(g)
  }

  lemma {:induction false} PumpAppendsTheRest(file: Bytes, parts: seq<Read>, body: Bytes)
    requires file <= body && HonestReads(parts, body[|file|..])
    ensures Pump(file, |file|, parts).file.Some? && Pump(file, |file|, parts).file.value <= body
    ensures 0 <= Pump(file, |file|, parts).n <= |body|
    ensures Pump(file, |file|, parts).ok ==> Pump(file, |file|, parts).file.value == body && Pump(file, |file|, parts).n == |body|
    decreases |parts|
  {
    if parts != [] {
      var r := parts[0];
      var rest := body[|file|..];
      assert body == file + rest;
      assert rest == r.data + rest[|r.data|..];
      assert body == (file + r.data) + rest[|r.data|..];
      assert body[|file + r.data|..] == rest[|r.data|..];
      if r.end == More && !(r.data != [] && r.write.Short?) {
        PumpAppendsTheRest(file + r.data, parts[1..], body);
      } else {
        assert r.data <= rest;
      }
    }
  }

  /** One attempt at one file, however it ends, leaves a beginning of the remote file, and
      success leaves all of it. */
  lemma FileStaysAPrefix(a: Attempt, i: nat, f: string, size: int, local: Option<Bytes>, body: Bytes)
    requires local.Some? ==> local.value <= body
    requires size == -1 || size == |body|
    requires forall offset :: HonestAnswer(a.answer(i, f, offset), body, offset)
    ensures var o := FileAfter(a, i, f, size, local);
            && (o.file.Some? ==> o.file.value <= body)
            && (o.ok ==> o.file == Some(body) && o.n == |body|)
            && 0 <= o.n <= |body|
  {
    if Complete(local, size, a.seen(i, f)) {
      assert local.value == body;
    } else if a.made(i, f) {
      var offset := Offset(local, size, a.seen(i, f));
      var v := a.answer(i, f, offset);
      assert HonestAnswer(v, body, offset);
      if v.Answer? && v.code == 206 && v.opens && local.Some? {
        PumpAppendsTheRest(local.value, v.parts, body);
      } else if v.Answer? && v.code == 200 {
        assert body[0..] == body;
        PumpAppendsTheRest([], v.parts, body);
      }
    }
  }

  // --- When an attempt succeeds ---

  /** The body is read to its end, and every byte of it written. */
  ghost predicate ReadThrough(parts: seq<Read>) {
    exists k :: 0 <= k < |parts| && EndsAt(parts, k)
  }

  ghost predicate EndsAt(parts: seq<Read>, k: nat)
    requires k < |parts|
  {
    && parts[k].end == Eof && (forall i :: 0 <= i < k ==> parts[i].end == More)
    && forall i :: 0 <= i <= k ==> parts[i].data == [] || parts[i].write == Whole
  }

  lemma {:induction false} PumpOkIff(file: Bytes, n: int, parts: seq<Read>)
    ensures Pump(file, n, parts).ok <==> ReadThrough(parts)
    decreases |parts|
  {
    if parts != [] && parts[0].end == More && (parts[0].data == [] || parts[0].write == Whole) {
      var rest := parts[1..];
      PumpOkIff(file + parts[0].data, n + |parts[0].data|, rest);
      assert forall i :: 1 <= i < |parts| ==> parts[i] == rest[i - 1];
      if k :| 0 <= k < |rest| && EndsAt(rest, k) {
        assert EndsAt(parts, k + 1);
      }
      if k :| 0 <= k < |parts| && EndsAt(parts, k) {
        assert k > 0 && EndsAt(rest, k - 1);
      }
    } else if parts != [] && parts[0].end == Eof && (parts[0].data == [] || parts[0].write == Whole) {
      assert EndsAt(parts, 0);
    }
  }

  /** The file's directory can be made, and either the file is already there in its known size, or
      the server, asked for what is missing of a shorter one and else for all of it, opens an answer
      that fits and that is read through. */
  ghost predicate GoesWell(a: Attempt, i: nat, f: string, size: int, local: Option<Bytes>) {
    && a.made(i, f)
    && ((a.seen(i, f) && local.Some? && |local.value| == size)
        || var from := if a.seen(i, f) && local.Some? && |local.value| < size then |local.value| else 0;
           var v := a.answer(i, f, from);
           v.Answer? && v.opens && (v.code == 200 || (v.code == 206 && local.Some?)) && ReadThrough(v.parts))
  }

  lemma FileOkIff(a: Attempt, i: nat, f: string, size: int, local: Option<Bytes>)
    ensures FileAfter(a, i, f, size, local).ok <==>
              GoesWell(a, i, f, size, local)
  {
    var v := a.answer(i, f, Offset(local, size, a.seen(i, f)));
    if v.Answer? {
      PumpOkIff([], 0, v.parts);
      if local.Some? {
        PumpOkIff(local.value, Offset(local, size, a.seen(i, f)), v.parts);
      }
    }
    hide Pump, ReadThrough;
  }

  /** What is at a file's place when its turn comes: what was there before the attempt, or all of it,
      fetched for an earlier name of the same place. */
  ghost function LocalAt(disk: map<string, Bytes>, path: string -> string, names: seq<string>, i: nat, remote: string -> Bytes): Option<Bytes>
    requires i < |names|
  {
    if exists j :: 0 <= j < i && path(names[j]) == path(names[i]) then Some(remote(names[i])) else Lookup(disk, path(names[i]))
  }

  lemma {:induction false} FilesOkIff(start: map<string, Bytes>, disk: map<string, Bytes>, a: Attempt, path: string -> string,
      names: seq<string>, i: nat, remote: string -> Bytes)
    requires i <= |names| && SizesKnown(a, names)
    requires AllPrefixes(disk, path, remote) && OneFilePerPath(path, remote) && Honest(a, remote)
    requires AllWhole(disk, names[..i], path, remote)
    requires forall p :: (forall j :: 0 <= j < i ==> path(names[j]) != p) ==> Lookup(disk, p) == Lookup(start, p)
    ensures AfterFiles(disk, a, path, names, i).ok <==>
              forall k :: i <= k < |names| ==> names[k] in names && GoesWell(a, k, names[k], a.size(names[k]).value, LocalAt(start, path, names, k, remote))
    decreases |names| - i
  {
    hide AfterFile, HonestAnswer, Honest, GoesWell;
    if i < |names| {
      var f := names[i];
      assert f in names;
      SizeOf(a, f, remote);
      var size := a.size(f).value;
      FileKeepsOthers(disk, a, path, i, f, size, remote);
      var r := AfterFile(disk, a, path, i, f, size);
      LocalIs(start, disk, path, names, i, remote);
      FileOkIff(a, i, f, size, Lookup(disk, path(f)));
      assert r.ok <==> GoesWell(a, i, f, size, LocalAt(start, path, names, i, remote)) by { AfterFileOk(disk, a, path, i, f, size); }
      if r.ok {
        WholeSoFar(disk, r.disk, path, names, i, remote);
        FilesOkIff(start, r.disk, a, path, names, i + 1, remote);
      }
    }
  }

  lemma AfterFileOk(disk: map<string, Bytes>, a: Attempt, path: string -> string, i: nat, f: string, size: int)
    ensures AfterFile(disk, a, path, i, f, size).ok <==> FileAfter(a, i, f, size, Lookup(disk, path(f))).ok
  {
  }

  lemma LocalIs(start: map<string, Bytes>, disk: map<string, Bytes>, path: string -> string, names: seq<string>, i: nat,
      remote: string -> Bytes)
    requires i < |names| && OneFilePerPath(path, remote) && AllWhole(disk, names[..i], path, remote)
    requires forall p :: (forall j :: 0 <= j < i ==> path(names[j]) != p) ==> Lookup(disk, p) == Lookup(start, p)
    ensures Lookup(disk, path(names[i])) == LocalAt(start, path, names, i, remote)
  {
    if j :| 0 <= j < i && path(names[j]) == path(names[i]) {
      assert names[..i][j] in names[..i];
    }
  }

  lemma WholeSoFar(disk: map<string, Bytes>, after: map<string, Bytes>, path: string -> string, names: seq<string>, i: nat,
      remote: string -> Bytes)
    requires i < |names| && OneFilePerPath(path, remote) && AllWhole(disk, names[..i], path, remote)
    requires AllWhole(after, [names[i]], path, remote)
    requires forall p :: p != path(names[i]) ==> Lookup(after, p) == Lookup(disk, p)
    ensures AllWhole(after, names[..i + 1], path, remote)
  {
    var f := names[i];
    assert f in [f];
    forall g | g in names[..i + 1] ensures path(g) in after && after[path(g)] == remote(g) {
      if path(g) != path(f) {
        assert names[..i + 1] == names[..i] + [f];
        assert g in names[..i];
        assert Lookup(after, path(g)) == Lookup(disk, path(g));
      }
    }
  }

  /** An attempt with an honest server succeeds exactly when it can list and choose its files, make
      its directory and learn every size, and every chosen file goes well. Then all of them are
      whole. */
  lemma AttemptSucceedsIff(disk: map<string, Bytes>, a: Attempt, path: string -> string, quantization: string, remote: string -> Bytes)
    requires AllPrefixes(disk, path, remote) && OneFilePerPath(path, remote) && Honest(a, remote)
    ensures var r := AfterAttempt(disk, a, path, quantization);
            && (r.ok <==> exists names :: IsPlan(a, quantization, names) && forall k :: 0 <= k < |names| ==>
                            names[k] in names && GoesWell(a, k, names[k], a.size(names[k]).value, LocalAt(disk, path, names, k, remote)))
            && (r.ok ==> forall names :: IsPlan(a, quantization, names) ==> AllWhole(r.disk, names, path, remote))
  {
    hide GoesWell, Honest;
    forall names ensures Plan(a, quantization) == Some(names) <==> IsPlan(a, quantization, names) {
      PlanIs(a, quantization, names);
    }
    if Plan(a, quantization).Some? {
      var names := Plan(a, quantization).value;
      FilesOkIff(disk, disk, a, path, names, 0, remote);
      FilesStayPrefixes(disk, a, path, names, 0, remote);
    }
  }

  /** What an attempt is to fetch: everything, or the one .gguf file whose name has the quantization
      in it. */
  ghost predicate IsPlan(a: Attempt, quantization: string, names: seq<string>) {
    && a.listing.Some? && a.destMade && SizesKnown(a, names)
    && if quantization == "" then names == a.listing.value
       else |names| == 1 && OnlyMatch(a.listing.value, quantization, names[0])
  }

  ghost predicate OnlyMatch(files: seq<string>, quantization: string, f: string) {
    exists i :: 0 <= i < |files| && OnlyMatchAt(files, quantization, f, i)
  }

  ghost predicate OnlyMatchAt(files: seq<string>, quantization: string, f: string, i: nat)
    requires i < |files|
  {
    && files[i] == f && HasSuffix(Lower(f), ".gguf") && Contains(f, quantization)
    && forall j :: 0 <= j < |files| && j != i ==> !(HasSuffix(Lower(files[j]), ".gguf") && Contains(files[j], quantization))
  }

  lemma PlanIs(a: Attempt, quantization: string, names: seq<string>)
    ensures Plan(a, quantization) == Some(names) <==> IsPlan(a, quantization, names)
  {
    if a.listing.Some? && quantization != "" {
      var files := a.listing.value;
      if |Matching(files, quantization)| == 1 {
        MatchingIsOne(files, quantization, Matching(files, quantization)[0]);
      }
      if |names| == 1 {
        MatchingIsOne(files, quantization, names[0]);
        assert names == [names[0]];
      }
    }
    hide Matches, Matching, OnlyMatch;
  }

  lemma MatchingIsOne(files: seq<string>, quantization: string, f: string)
    ensures Matching(files, quantization) == [f] <==> OnlyMatch(files, quantization, f)
  {
    MatchingCounts(files, quantization);
    var m := Matching(files, quantization);
    assert forall g :: Matches(g, quantization) <==> HasSuffix(Lower(g), ".gguf") && Contains(g, quantization);
    hide Matching, HasSuffix, Contains, Lower, Matches;
    if m == [f] {
      assert f in m;
      var i :| 0 <= i < |files| && files[i] == f;
      assert !TwoMatch(files, quantization);
      assert forall j :: 0 <= j < |files| && j != i ==> !Matches(files[j], quantization);
      assert OnlyMatchAt(files, quantization, f, i);
    }
    if OnlyMatch(files, quantization, f) {
      var i :| 0 <= i < |files| && OnlyMatchAt(files, quantization, f, i);
      assert !TwoMatch(files, quantization);
      assert f in m && m == [m[0]];
    }
  }

  function Total(names: seq<string>, remote: string -> Bytes): nat {
    if names == [] then 0 else |remote(names[0])| + Total(names[1..], remote)
  }

  /** No name's file is anything but whole. */
  ghost predicate AllWhole(disk: map<string, Bytes>, names: seq<string>, path: string -> string,
      remote: string -> Bytes) {
    forall f :: f in names ==> path(f) in disk && disk[path(f)] == remote(f)
  }

  lemma FileKeepsOthers(disk: map<string, Bytes>, a: Attempt, path: string -> string, i: nat, f: string, size: int,
      remote: string -> Bytes)
    requires AllPrefixes(disk, path, remote) && OneFilePerPath(path, remote) && Honest(a, remote)
    requires size == -1 || size == |remote(f)|
    ensures var r := AfterFile(disk, a, path, i, f, size);
            && AllPrefixes(r.disk, path, remote) && 0 <= r.bytes <= |remote(f)|
            && (r.ok ==> AllWhole(r.disk, [f], path, remote) && r.bytes == |remote(f)|)
            && (forall p :: p != path(f) ==> Lookup(r.disk, p) == Lookup(disk, p))
  {
    FileStaysAPrefix(a, i, f, size, Lookup(disk, path(f)), remote(f));
  }

  /** An attempt never harms a file, on success every chosen file is whole, and the bytes
      reported at the end are at most, on success exactly, the chosen files' total. */
  lemma {:induction false} FilesStayPrefixes(disk: map<string, Bytes>, a: Attempt, path: string -> string,
      names: seq<string>, i: nat, remote: string -> Bytes)
    requires i <= |names| && SizesKnown(a, names)
    requires AllPrefixes(disk, path, remote) && OneFilePerPath(path, remote) && Honest(a, remote)
    requires AllWhole(disk, names[..i], path, remote)
    ensures var r := AfterFiles(disk, a, path, names, i);
            && AllPrefixes(r.disk, path, remote)
            && (r.ok ==> AllWhole(r.disk, names, path, remote) && r.bytes == Total(names[i..], remote))
            && 0 <= r.bytes <= Total(names[i..], remote)
    decreases |names| - i
  {
    hide AfterFile, HonestAnswer, Honest;
    if i == |names| {
      assert names[..i] == names;
    } else {
      var f := names[i];
      assert f in names;
      assert a.size(f).value == -1 || a.size(f).value == |remote(f)| by { SizeOf(a, f, remote); }
      FileKeepsOthers(disk, a, path, i, f, a.size(f).value, remote);
      var r := AfterFile(disk, a, path, i, f, a.size(f).value);
      assert names[i..][0] == f && names[i..][1..] == names[i + 1..];
      if r.ok {
        forall g | g in names[..i + 1] ensures path(g) in r.disk && r.disk[path(g)] == remote(g) {
          assert f in [f];
          if path(g) != path(f) {
            assert names[..i + 1] == names[..i] + [f];
            assert g in names[..i];
            assert Lookup(r.disk, path(g)) == Lookup(disk, path(g));
          }
        }
        FilesStayPrefixes(r.disk, a, path, names, i + 1, remote);
      }
    }
  }

  lemma SizeOf(a: Attempt, f: string, remote: string -> Bytes)
    requires Honest(a, remote) && a.size(f).Some?
    ensures a.size(f).value == -1 || a.size(f).value == |remote(f)|
  {
  }

  function AfterAttempts(disk: map<string, Bytes>, attempts: seq<Attempt>, path: string -> string,
      quantization: string): Result {
    if attempts == [] then Result(disk, 0, false)
    else AfterAttempt(AfterAttempts(disk, attempts[..|attempts| - 1], path, quantization).disk, attempts[|attempts| - 1], path, quantization)
  }

  /** Any number of attempts, each interrupted anywhere, leaves every local file a beginning of
      its remote file; when the last attempt succeeds every file it chose is whole. */
  lemma {:induction false} AttemptsNeverCorrupt(disk: map<string, Bytes>, attempts: seq<Attempt>,
      path: string -> string, quantization: string, remote: string -> Bytes)
    requires AllPrefixes(disk, path, remote) && OneFilePerPath(path, remote)
    requires forall a :: a in attempts ==> Honest(a, remote)
    ensures var r := AfterAttempts(disk, attempts, path, quantization);
            && AllPrefixes(r.disk, path, remote)
            && (r.ok ==> AllWhole(r.disk, Plan(attempts[|attempts| - 1], quantization).value, path, remote))
  {
    if attempts != [] {
      var last := attempts[|attempts| - 1];
      assert last in attempts;
      AttemptsNeverCorrupt(disk, attempts[..|attempts| - 1], path, quantization, remote);
      var before := AfterAttempts(disk, attempts[..|attempts| - 1], path, quantization).disk;
      if Plan(last, quantization).Some? {
        FilesStayPrefixes(before, last, path, Plan(last, quantization).value, 0, remote);
      }
    }
  }

  /** The reported totals are the truth when every size is known: the announced total is the
      chosen files' size, no report exceeds it, and a completed attempt reports all of it. */
  lemma ReportedBytesAreTheTotal(disk: map<string, Bytes>, a: Attempt, path: string -> string,
      quantization: string, remote: string -> Bytes)
    requires AllPrefixes(disk, path, remote) && OneFilePerPath(path, remote) && Honest(a, remote)
    requires Plan(a, quantization).Some?
    requires forall f :: f in Plan(a, quantization).value ==> a.size(f) != Some(-1)
    ensures var names := Plan(a, quantization).value;
            var r := AfterAttempt(disk, a, path, quantization);
            && 0 <= r.bytes <= SumSizes(a, names)
            && (r.ok ==> r.bytes == SumSizes(a, names))
  {
    var names := Plan(a, quantization).value;
    FilesStayPrefixes(disk, a, path, names, 0, remote);
    assert names[0..] == names;
    TotalIsSumSizes(a, names, remote);
  }

  lemma TotalSplit(names: seq<string>, f: string, remote: string -> Bytes)
    ensures Total(names + [f], remote) == Total(names, remote) + |remote(f)|
  {
    if names == [] {
      assert names + [f] == [f];
    } else {
      assert (names + [f])[1..] == names[1..] + [f];
      TotalSplit(names[1..], f, remote);
    }
  }

  lemma {:induction false} TotalIsSumSizes(a: Attempt, names: seq<string>, remote: string -> Bytes)
    requires SizesKnown(a, names) && Honest(a, remote)
    requires forall f :: f in names ==> a.size(f) != Some(-1)
    ensures SumSizes(a, names) == Total(names, remote)
  {
    if names != [] {
      var f, init := names[|names| - 1], names[..|names| - 1];
      assert f in names && names == init + [f];
      SizeOf(a, f, remote);
      TotalIsSumSizes(a, init, remote);
      TotalSplit(init, f, remote);
    }
  }

  /** A file once whole survives whatever answer a later attempt meets exactly when that attempt
      stops before looking at it, or can examine it and is told its size: otherwise it is fetched
      again from its first byte, and a cut loses it. */
  lemma WholeFileSurvivesIff(a: Attempt, i: nat, f: string, size: int, body: Bytes)
    requires body != [] && (size == -1 || size == |body|)
    ensures !a.made(i, f) || (a.seen(i, f) && size == |body|) <==>
              forall answer: (nat, string, nat) -> Answer ::
                (forall offset :: HonestAnswer(answer(i, f, offset), body, offset)) ==>
                  FileAfter(a.(answer := answer), i, f, size, Some(body)).file == Some(body)
  {
    if a.made(i, f) && !(a.seen(i, f) && size == |body|) {
      var cut := [Read([], Failure, Whole)];
      var answer: (nat, string, nat) -> Answer := (j, g, offset) => Answer(200, true, cut);
      var b := a.(answer := answer);
      assert b.answer(i, f, 0) == Answer(200, true, cut) && b.made(i, f);
      assert forall offset :: HonestAnswer(answer(i, f, offset), body, offset);
      assert Pump([], 0, cut).file == Some([] + []);
      assert Offset(Some(body), size, b.seen(i, f)) == 0;
      assert FileAfter(b, i, f, size, Some(body)) == Pump([], 0, cut);
    }
  }
}
