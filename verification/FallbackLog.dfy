/** The HTTP output's fallback log (internal/output/http.go): retries, append, and rotation by
    renaming. A file is the list of the records appended to it, so where a file is cut is always
    between records; `path` itself is file 0 and `path.i` is file i. File operations succeed. */
module FallbackLog {
  import opened Options
  import opened Bytes

  type Record = Bytes

  function Size(rs: seq<Record>): nat {
    if rs == [] then 0 else Size(rs[..|rs| - 1]) + |rs[|rs| - 1]|
  }

  lemma OpenFile(files: Dir, l: Segments, keep: nat)
    requires Represents(files, l, keep) && 0 in files
    ensures files[0] == l.open
  {
  }

  lemma EmptySize()
    ensures Size([]) == 0
  {
  }

  lemma SizeAppend(rs: seq<Record>, r: Record)
    ensures Size(rs + [r]) == Size(rs) + |r|
  {
  }

  // ----- the simple form: an unbounded log cut into segments -----

  /** All closed segments, oldest first, and the open one. */
  datatype Segments = Segments(closed: seq<seq<Record>>, open: seq<Record>)

  /** A record goes to the open segment, which is closed once it reaches `max` bytes; a limit that
      is not positive never closes. */
  function Append(max: int, l: Segments, r: Record): Segments {
    var open := l.open + [r];
    if max > 0 && Size(open) >= max then Segments(l.closed + [open], []) else Segments(l.closed, open)
  }

  function AppendAll(max: int, l: Segments, rs: seq<Record>): Segments {
    if rs == [] then l else Append(max, AppendAll(max, l, rs[..|rs| - 1]), rs[|rs| - 1])
  }

  function Flatten(segments: seq<seq<Record>>): seq<Record> {
    if segments == [] then [] else Flatten(segments[..|segments| - 1]) + segments[|segments| - 1]
  }

  function AllRecords(l: Segments): seq<Record> {
    Flatten(l.closed) + l.open
  }

  /** Segments lose nothing: they spell out every record ever appended, in order. */
  lemma {:induction false} SegmentsComplete(max: int, l: Segments, rs: seq<Record>)
    ensures AllRecords(AppendAll(max, l, rs)) == AllRecords(l) + rs
  {
    if rs == [] {
      assert AllRecords(l) + [] == AllRecords(l);
    } else {
      var front, r := rs[..|rs| - 1], rs[|rs| - 1];
      SegmentsComplete(max, l, front);
      AppendComplete(max, AppendAll(max, l, front), r);
      assert rs == front + [r];
      assert AllRecords(l) + front + [r] == AllRecords(l) + rs;
    }
  }

  lemma AppendComplete(max: int, l: Segments, r: Record)
    ensures AllRecords(Append(max, l, r)) == AllRecords(l) + [r]
  {
  }

  /** Closed as soon as it reached the limit: at least max bytes, fewer without its last record. */
  ghost predicate JustFull(max: int, s: seq<Record>) {
    s != [] && Size(s) >= max && Size(s[..|s| - 1]) < max
  }

  /** Without a limit nothing is ever closed. */
  lemma {:induction false} NoLimitNeverCloses(max: int, l: Segments, rs: seq<Record>)
    requires max <= 0
    ensures AppendAll(max, l, rs) == Segments(l.closed, l.open + rs)
  {
    if rs == [] {
      assert l.open + [] == l.open;
    } else {
      var front, r := rs[..|rs| - 1], rs[|rs| - 1];
      NoLimitNeverCloses(max, l, front);
      assert l.open + front + [r] == l.open + rs;
    }
  }

  /** From an open segment below the limit on, every segment closed is just full, and the open one
      stays below the limit. */
  lemma {:induction false} SegmentSizes(max: int, l: Segments, rs: seq<Record>)
    requires max > 0 && Size(l.open) < max
    ensures var l' := AppendAll(max, l, rs);
            && Size(l'.open) < max
            && |l.closed| <= |l'.closed| && l'.closed[..|l.closed|] == l.closed
            && forall i :: |l.closed| <= i < |l'.closed| ==> JustFull(max, l'.closed[i])
  {
    if rs != [] {
      var front, r := rs[..|rs| - 1], rs[|rs| - 1];
      SegmentSizes(max, l, front);
      var m := AppendAll(max, l, front);
      assert (m.open + [r])[..|m.open|] == m.open;
    }
  }

  // ----- what is on disk -----

  type Dir = map<nat, seq<Record>>

  /** How many backups survive a rotation: the loop moves path.maxBackups to
      path.(maxBackups + 1) and never deletes it, so one more than configured. */
  function Kept(maxBackups: int): nat {
    if maxBackups > 0 then maxBackups + 1 else 1
  }

  /** The files hold the last `keep` closed segments, newest in path.1, numbered without gaps, and
      the open segment in `path`, which may be missing while empty. */
  ghost predicate Represents(files: Dir, l: Segments, keep: nat) {
    && (forall i :: 1 <= i <= keep ==> (i in files <==> i <= |l.closed|))
    && (forall i :: 1 <= i <= keep && i in files ==> i <= |l.closed| && files[i] == l.closed[|l.closed| - i])
    && (if 0 in files then files[0] == l.open else l.open == [])
  }

  /** A record written to `path` goes to the open segment. */
  lemma AppendKeeps(files: Dir, l: Segments, keep: nat, r: Record)
    requires Represents(files, l, keep) && 0 in files
    ensures Represents(files[0 := files[0] + [r]], Segments(l.closed, l.open + [r]), keep)
  {
  }

  // ----- how many backups there are -----

  /** The numbers of the backups: path.i for every i here. */
  function Backups(files: Dir): set<nat> {
    set i | i in files && i >= 1
  }

  /** Nothing is numbered beyond the last backup that a rotation writes. */
  ghost predicate NoneBeyond(files: Dir, keep: nat) {
    forall i :: i in files ==> i <= keep
  }

  lemma {:induction false} CountUpTo(s: set<nat>, n: nat)
    requires forall i: nat :: i in s <==> 1 <= i <= n
    ensures |s| == n
  {
    if n > 0 {
      CountUpTo(s - {n}, n - 1);
    } else {
      assert s == {};
    }
  }

  /** The configured limit N is kept exactly as long as no more than N segments have been closed:
      with N + 1 of them the rotation leaves N + 1 backups, and then never more. */
  lemma BackupsWithinLimitIff(files: Dir, l: Segments, maxBackups: nat)
    requires Represents(files, l, Kept(maxBackups)) && NoneBeyond(files, Kept(maxBackups))
    ensures |Backups(files)| <= maxBackups <==> |l.closed| <= maxBackups
    ensures |Backups(files)| == if |l.closed| <= maxBackups then |l.closed| else maxBackups + 1
  {
    CountUpTo(Backups(files), if |l.closed| <= maxBackups then |l.closed| else maxBackups + 1);
  }

  /** And it is passed in practice: records that fill a segment each, one more than N of them, make
      N + 1 backups whatever N is. */
  lemma LimitPassed(max: nat, maxBackups: nat, r: Record) returns (files: Dir, l: Segments)
    requires max > 0 && |r| >= max
    ensures l == AppendAll(max, Segments([], []), seq(maxBackups + 1, _ => r))
    ensures Represents(files, l, Kept(maxBackups)) && NoneBeyond(files, Kept(maxBackups))
    ensures |Backups(files)| == maxBackups + 1
  {
    l := FilledSegments(max, maxBackups + 1, r);
    files := FilledFiles(maxBackups + 1, r);
    BackupsWithinLimitIff(files, l, maxBackups);
  }

  function FilledFiles(n: nat, r: Record): (files: Dir)
    ensures forall i :: i in files <==> 1 <= i <= n
    ensures forall i :: i in files ==> files[i] == [r]
  {
    if n == 0 then map[] else FilledFiles(n - 1, r)[n := [r]]
  }

  lemma {:induction false} FilledSegments(max: nat, n: nat, r: Record) returns (l: Segments)
    requires max > 0 && |r| >= max
    ensures l == AppendAll(max, Segments([], []), seq(n, _ => r))
    ensures l == Segments(seq(n, _ => [r]), [])
  {
    if n == 0 {
      l := Segments([], []);
    } else {
      var before := FilledSegments(max, n - 1, r);
      assert seq(n, _ => r)[..n - 1] == seq(n - 1, _ => r);
      assert Size([] + [r]) == |r| by { EmptySize(); SizeAppend([], r); }
      l := Append(max, before, r);
      assert l.closed == seq(n, _ => [r]);
    }
  }

  function At(files: Dir, i: nat): Option<seq<Record>> {
    if i in files then Some(files[i]) else None
  }

  /** The backups numbered beyond `n` are the same. */
  ghost predicate SameBeyond(before: Dir, after: Dir, n: nat) {
    forall i :: i > n ==> At(after, i) == At(before, i)
  }

  lemma SameBeyondSelf(files: Dir, n: nat)
    ensures SameBeyond(files, files, n)
  {
  }

  lemma SameBeyondTwice(a: Dir, b: Dir, c: Dir, m: nat, n: nat)
    requires SameBeyond(a, b, m) && SameBeyond(b, c, n)
    ensures SameBeyond(a, c, if m > n then m else n)
  {
  }

  lemma SameBeyondMore(a: Dir, b: Dir, n: nat)
    requires SameBeyond(a, b, 0)
    ensures SameBeyond(a, b, n)
  {
  }

  function FileAt(files: Dir, i: nat): seq<Record> {
    if i in files then files[i] else []
  }

  /** Reading path.n, path.(n-1), … path.1 and then path. */
  function ReadBack(files: Dir, n: nat): seq<Record> {
    if n == 0 then FileAt(files, 0) else FileAt(files, n) + ReadBack(files, n - 1)
  }

  /** The last n closed segments and the open one. */
  function Tail(l: Segments, n: nat): seq<Record> {
    var m := if n <= |l.closed| then n else |l.closed|;
    Flatten(l.closed[|l.closed| - m..]) + l.open
  }

  lemma {:induction false} FlattenConcat(a: seq<seq<Record>>, b: seq<seq<Record>>)
    ensures Flatten(a + b) == Flatten(a) + Flatten(b)
  {
    if b == [] {
      assert a + b == a && Flatten(a) + [] == Flatten(a);
    } else {
      var front, s := b[..|b| - 1], b[|b| - 1];
      FlattenConcat(a, front);
      assert (a + b)[..|a + b| - 1] == a + front;
      assert Flatten(a) + (Flatten(front) + s) == (Flatten(a) + Flatten(front)) + s;
    }
  }

  lemma FlattenOne(s: seq<Record>)
    ensures Flatten([s]) == s
  {
    assert [s][..0] == [];
  }

  lemma FlattenFirst(segments: seq<seq<Record>>)
    requires segments != []
    ensures Flatten(segments) == segments[0] + Flatten(segments[1..])
  {
    FlattenOne(segments[0]);
    hide Flatten;
    FlattenConcat([segments[0]], segments[1..]);
    assert segments == [segments[0]] + segments[1..];
  }

  lemma TailStep(l: Segments, n: nat)
    requires n > 0
    ensures Tail(l, n) == (if n <= |l.closed| then l.closed[|l.closed| - n] else []) + Tail(l, n - 1)
  {
    hide Flatten;
    var c := |l.closed|;
    if n <= c {
      var last := l.closed[c - n..];
      assert last[1..] == l.closed[c - n + 1..];
      FlattenFirst(last);
    }
  }

  lemma FileIs(files: Dir, l: Segments, keep: nat, n: nat)
    requires Represents(files, l, keep) && n <= keep
    ensures FileAt(files, n) == if n == 0 then l.open else if n <= |l.closed| then l.closed[|l.closed| - n] else []
  {
  }

  lemma TailNone(l: Segments)
    ensures Tail(l, 0) == l.open
  {
    assert l.closed[|l.closed|..] == [];
    assert [] + l.open == l.open;
  }

  lemma {:induction false} ReadBackIsTail(files: Dir, l: Segments, keep: nat, n: nat)
    requires Represents(files, l, keep) && n <= keep
    ensures ReadBack(files, n) == Tail(l, n)
  {
    hide Represents, FileAt, Tail;
    FileIs(files, l, keep, n);
    if n == 0 {
      TailNone(l);
    } else {
      ReadBackIsTail(files, l, keep, n - 1);
      TailStep(l, n);
    }
  }

  lemma TailIsSuffix(l: Segments, n: nat)
    ensures IsSuffix(Tail(l, n), AllRecords(l))
    ensures |l.closed| <= n ==> Tail(l, n) == AllRecords(l)
  {
    hide Flatten;
    var c := |l.closed|;
    var m := if n <= c then n else c;
    var a, b := l.closed[..c - m], l.closed[c - m..];
    FlattenConcat(a, b);
    assert l.closed == a + b;
    assert AllRecords(l) == Flatten(a) + Tail(l, n);
    assert AllRecords(l)[|Flatten(a)|..] == Tail(l, n);
    if c <= n {
      assert b == l.closed;
    }
  }

  ghost predicate IsSuffix(part: seq<Record>, whole: seq<Record>) {
    exists dropped :: 0 <= dropped <= |whole| && part == whole[dropped..]
  }

  /** Reading the backups from path.(N+1) down to path.1 and then path gives an exact suffix of
      everything ever appended, cut between records. */
  lemma DiskIsSuffix(files: Dir, l: Segments, keep: nat)
    requires Represents(files, l, keep)
    ensures IsSuffix(ReadBack(files, keep), AllRecords(l))
    ensures |l.closed| <= keep ==> ReadBack(files, keep) == AllRecords(l)
  {
    ReadBackIsTail(files, l, keep, keep);
    TailIsSuffix(l, keep);
  }

  /** Backups are numbered without gaps, the `written` newest ones were closed just as they reached
      the limit, and `path` is below the limit. */
  ghost predicate BoundedFiles(files: Dir, max: int, written: int, keep: nat) {
    && (forall i, j :: 1 <= i <= j <= keep && j in files ==> i in files)
    && (forall i :: 1 <= i <= keep && i in files && i <= written ==> JustFull(max, files[i]))
    && Size(FileAt(files, 0)) < max
  }

  /** The fallback files once the records rs have been appended to a directory that held l0: every
      backup written since was closed just as it reached the limit. */
  lemma BoundedLog(files: Dir, max: int, l0: Segments, rs: seq<Record>, keep: nat)
    requires max > 0 && Size(l0.open) < max
    requires Represents(files, AppendAll(max, l0, rs), keep)
    ensures IsSuffix(ReadBack(files, keep), AllRecords(l0) + rs)
    ensures BoundedFiles(files, max, |AppendAll(max, l0, rs).closed| - |l0.closed|, keep)
  {
    hide AppendAll, AllRecords, Represents;
    SegmentsComplete(max, l0, rs);
    SegmentSizes(max, l0, rs);
    DiskIsSuffix(files, AppendAll(max, l0, rs), keep);
    hide ReadBack, IsSuffix;
    FilesBounded(files, max, l0, AppendAll(max, l0, rs), keep);
  }

  /** With or without a limit the files read back as a suffix; with one they are bounded. */
  lemma FilesAfter(files: Dir, max: int, l0: Segments, rs: seq<Record>, keep: nat)
    requires Represents(files, AppendAll(max, l0, rs), keep)
    ensures IsSuffix(ReadBack(files, keep), AllRecords(l0) + rs)
    ensures max > 0 && Size(l0.open) < max ==> BoundedFiles(files, max, |AppendAll(max, l0, rs).closed| - |l0.closed|, keep)
  {
    hide Represents, AppendAll, BoundedFiles, IsSuffix, AllRecords, ReadBack;
    SegmentsComplete(max, l0, rs);
    DiskIsSuffix(files, AppendAll(max, l0, rs), keep);
    if max > 0 && Size(l0.open) < max {
      BoundedLog(files, max, l0, rs, keep);
    }
  }

  lemma FilesBounded(files: Dir, max: int, l0: Segments, l: Segments, keep: nat)
    requires Represents(files, l, keep) && Size(l.open) < max && |l0.closed| <= |l.closed|
    requires forall i :: |l0.closed| <= i < |l.closed| ==> JustFull(max, l.closed[i])
    ensures BoundedFiles(files, max, |l.closed| - |l0.closed|, keep)
  {
    hide Size, JustFull;
    EmptySize();
  }

  // ----- the output itself -----

  datatype Reply = NoRequest | NoResponse | Status(code: int)

  /** One attempt: whether the context ended during the back-off before it, and what came back. */
  datatype Attempt = Attempt(cancelled: bool, reply: Reply)

  predicate Accepted(a: Attempt) {
    a.reply.Status? && 200 <= a.reply.code < 300
  }

  datatype Outcome = Sent | Saved | Closed | BadFormat | NoFallback

  /** What becomes of one event: sent when some attempt within the limit is answered 2xx with no
      cancellation on the way to it, otherwise saved if there is a fallback. */
  ghost predicate IsOutcome(closed: bool, hasFallback: bool, retryMax: int, body: Option<Bytes>, attempts: nat -> Attempt, r: Outcome) {
    && (r == Sent <==> !closed && body.Some? && exists k: nat ::
         k <= retryMax && attempts(k).reply.Status? && 200 <= attempts(k).reply.code <= 299 &&
         forall i: nat :: 0 < i <= k ==> !attempts(i).cancelled)
    && (!closed && body.Some? && r != Sent ==> r == if hasFallback then Saved else NoFallback)
  }

  /** The records of the events that were saved, in order. */
  function SavedRecords(bodies: seq<Option<Bytes>>, outcomes: seq<Outcome>): seq<Record>
    requires |outcomes| == |bodies|
  {
    if bodies == [] then []
    else
      var n := |bodies| - 1;
      SavedRecords(bodies[..n], outcomes[..n]) +
      (if outcomes[n] == Saved && bodies[n].Some? then [bodies[n].value + [LINE_FEED]] else [])
  }

  lemma NothingSaved(max: int, l: Segments)
    ensures SavedRecords([], []) == [] && AppendAll(max, l, []) == l
  {
  }

  lemma SavedStep(bodies: seq<Option<Bytes>>, outcomes: seq<Outcome>, i: nat, r: Outcome)
    requires |outcomes| == i < |bodies|
    ensures SavedRecords(bodies[..i + 1], outcomes + [r]) == SavedRecords(bodies[..i], outcomes) +
            (if r == Saved && bodies[i].Some? then [bodies[i].value + [10]] else [])
  {
    assert bodies[..i + 1][..i] == bodies[..i] && (outcomes + [r])[..i] == outcomes;
  }

  lemma AppendAllStep(max: int, l0: Segments, l: Segments, rs: seq<Record>, body: Option<Bytes>, r: Outcome)
    requires l == AppendAll(max, l0, rs)
    ensures AppendAll(max, l0, rs + (if r == Saved && body.Some? then [body.value + [10]] else [])) ==
            if r == Saved && body.Some? then Append(max, l, body.value + [10]) else l
  {
    if r == Saved && body.Some? {
      assert (rs + [body.value + [10]])[..|rs|] == rs;
    } else {
      assert rs + [] == rs;
    }
  }

  class HTTPOutput {
    const retryMax: int
    const hasFallback: bool
    const fallbackMaxSize: int
    const maxBackups: int
    var files: Dir
    var isOpen: bool
    var fbSize: int
    var closed: bool
    /** The simple form of everything appended so far, including what was found on disk. */
    ghost var log: Segments

    function MaxBytes(): int { fallbackMaxSize * 1024 * 1024 }

    ghost predicate Valid()
      reads this
    {
      && Represents(files, log, Kept(maxBackups))
      && (isOpen ==> 0 in files && fbSize == Size(files[0]))
    }

    constructor (retryMax: int, hasFallback: bool, fallbackMaxSize: int, maxBackups: int, files: Dir, ghost found: Segments)
      requires Represents(files, found, Kept(maxBackups))
      ensures Valid() && log == found && this.files == files && !closed
      ensures this.retryMax == retryMax && this.hasFallback == hasFallback
      ensures this.fallbackMaxSize == fallbackMaxSize && this.maxBackups == maxBackups
    {
      this.retryMax, this.hasFallback, this.fallbackMaxSize, this.maxBackups := retryMax, hasFallback, fallbackMaxSize, maxBackups;
      this.files, isOpen, fbSize, closed, log := files, false, 0, false, found;
    }

    method TrySend(attempts: nat -> Attempt) returns (sent: bool)
      ensures sent <==> exists k: nat ::
                k <= retryMax && attempts(k).reply.Status? && 200 <= attempts(k).reply.code <= 299 &&
                forall i: nat :: 0 < i <= k ==> !attempts(i).cancelled
    {
      var attempt: nat := 0;
      while attempt <= retryMax
        invariant forall i: nat :: i < attempt ==> !Accepted(attempts(i))
        invariant forall i: nat :: 0 < i < attempt ==> !attempts(i).cancelled
        decreases retryMax - attempt
      {
        if attempt > 0 && attempts(attempt).cancelled {
          return false;
        }
        if Accepted(attempts(attempt)) {
          return true;
        }
        attempt := attempt + 1;
      }
      return false;
    }

    /** os.Rename: replaces the destination. `mayReplace` says whether that may be a file that is
        still wanted at its old place. */
    method Rename(src: nat, dst: nat, ghost mayReplace: bool)
      requires src in files && src != dst
      requires dst in files ==> mayReplace
      modifies this`files
      ensures src !in files && At(files, dst) == At(old(files), src)
      ensures forall j: nat :: j != src && j != dst ==> At(files, j) == At(old(files), j)
    {
      files := files[dst := files[src]] - {src};
    }

    /** Every backup moves up by one, the oldest kept one is replaced, and `path` becomes path.1.
        The renames run from the highest number down, so only path.(maxBackups + 1) is replaced. */
    method RotateFallback()
      requires Valid() && isOpen
      modifies this`files, this`isOpen, this`fbSize
      ensures !isOpen && fbSize == 0 && 0 !in files
      ensures Represents(files, Segments(log.closed + [log.open], []), Kept(maxBackups))
      ensures At(files, 1) == At(old(files), 0) && forall i: nat :: 2 <= i <= maxBackups + 1 ==> At(files, i) == At(old(files), i - 1)
      ensures SameBeyond(old(files), files, Kept(maxBackups))
    {
      isOpen := false;
      ghost var before := files;
      var i := maxBackups;
      while i > 0
        invariant !isOpen && (maxBackups > 0 ==> 0 <= i <= maxBackups)
        invariant maxBackups <= 0 ==> i == maxBackups && files == before
        invariant forall j: nat :: j <= i ==> At(files, j) == At(before, j)
        invariant forall j: nat :: i + 2 <= j <= maxBackups + 1 ==> At(files, j) == At(before, j - 1)
        invariant 0 <= i < maxBackups ==> i + 1 !in files
        invariant i == maxBackups ==> files == before
        invariant forall j: nat :: j > Kept(maxBackups) ==> At(files, j) == At(before, j)
      {
        ghost var prev := files;
        assert At(files, i) == At(before, i);
        if i in files {
          Rename(i, i + 1, i == maxBackups);
        } else {
          assert i == maxBackups ==> i + 1 !in before;
        }
        assert At(files, i + 1) == At(before, i);
        assert forall j: nat :: j != i && j != i + 1 ==> At(files, j) == At(prev, j);
        i := i - 1;
      }
      assert At(files, 0) == At(before, 0);
      Rename(0, 1, maxBackups <= 0);
      fbSize := 0;
      Rotated(before, files, log, Kept(maxBackups));
    }

    /** Opens `path`, creating it if needed, and takes its size from the file. */
    method EnsureOpen()
      requires Valid()
      modifies this`files, this`isOpen, this`fbSize
      ensures Valid() && isOpen
      ensures SameBeyond(old(files), files, 0)
    {
      if !isOpen {
        if 0 !in files {
          files := files[0 := []];
        }
        isOpen, fbSize := true, Size(files[0]);
      }
    }

    method WriteRecord(record: Record)
      requires Valid() && isOpen
      modifies this`files, this`fbSize, this`log
      ensures Valid() && log == Segments(old(log).closed, old(log).open + [record])
      ensures SameBeyond(old(files), files, 0)
    {
      hide Represents, Size;
      AppendKeeps(files, log, Kept(maxBackups), record);
      SizeAppend(files[0], record);
      files := files[0 := files[0] + [record]];
      log := Segments(log.closed, log.open + [record]);
      fbSize := fbSize + |record|;
    }

    /** Appends one record and rotates when the file has reached the limit. */
    method WriteFallback(body: Bytes) returns (ok: bool)
      requires Valid()
      modifies this`files, this`isOpen, this`fbSize, this`log
      ensures Valid() && ok == hasFallback
      ensures log == if ok then Append(fallbackMaxSize * 1_048_576, old(log), body + [10]) else old(log)
      ensures !ok ==> files == old(files)
      ensures ok && fallbackMaxSize > 0 ==> Size(FileAt(files, 0)) < fallbackMaxSize * 1_048_576
      ensures SameBeyond(old(files), files, Kept(maxBackups))
    {
      if !hasFallback {
        return false;
      }
      hide Size, Represents, SameBeyond;
      ghost var f0 := files;
      EnsureOpen();
      ghost var f1 := files;
      WriteRecord(body + [LINE_FEED]);
      SameBeyondTwice(f0, f1, files, 0, 0);
      ghost var f2 := files;
      assert SameBeyond(f0, f2, Kept(maxBackups)) by { SameBeyondMore(f0, f2, Kept(maxBackups)); }
      assert Size(log.open) == fbSize by { OpenFile(files, log, Kept(maxBackups)); }
      if fallbackMaxSize > 0 && fbSize >= MaxBytes() {
        RotateFallback();
        SameBeyondTwice(f0, f2, files, Kept(maxBackups), Kept(maxBackups));
        log := Segments(log.closed + [log.open], []);
        assert Size(FileAt(files, 0)) == 0 by { EmptySize(); }
      }
      return true;
    }

    /** Publishing returns without error exactly when the event was answered 2xx or its record was
        appended to the log; nothing is ever both sent and saved, and failures change nothing. */
    method Publish(body: Option<Bytes>, attempts: nat -> Attempt) returns (r: Outcome)
      requires Valid()
      modifies this`files, this`isOpen, this`fbSize, this`log
      ensures Valid() && closed == old(closed)
      ensures r == Closed <==> closed
      ensures r == BadFormat <==> !closed && body.None?
      ensures r == Sent <==> !closed && body.Some? && exists k: nat ::
                k <= retryMax && attempts(k).reply.Status? && 200 <= attempts(k).reply.code <= 299 &&
                forall i: nat :: 0 < i <= k ==> !attempts(i).cancelled
      ensures !closed && body.Some? && r != Sent ==> r == if hasFallback then Saved else NoFallback
      ensures IsOutcome(closed, hasFallback, retryMax, body, attempts, r)
      ensures r == Saved ==> body.Some? && log == Append(fallbackMaxSize * 1_048_576, old(log), body.value + [10])
      ensures r == Saved && fallbackMaxSize > 0 ==> Size(FileAt(files, 0)) < fallbackMaxSize * 1_048_576
      ensures r != Saved ==> log == old(log) && files == old(files)
      ensures SameBeyond(old(files), files, Kept(maxBackups))
    {
      if closed {
        return Closed;
      }
      if body.None? {
        return BadFormat;
      }
      var sent := TrySend(attempts);
      if sent {
        return Sent;
      }
      var saved := WriteFallback(body.value);
      return if saved then Saved else NoFallback;
    }

    /** Any sequence of events with any server answers: what the fallback files hold afterwards is
        an exact suffix of what they held before followed by the records of the saved events. */
    method PublishAll(bodies: seq<Option<Bytes>>, attempts: nat -> (nat -> Attempt)) returns (outcomes: seq<Outcome>)
      requires Valid()
      modifies this`files, this`isOpen, this`fbSize, this`log
      ensures Valid() && closed == old(closed) && |outcomes| == |bodies|
      ensures forall i :: 0 <= i < |bodies| ==> IsOutcome(closed, hasFallback, retryMax, bodies[i], attempts(i), outcomes[i])
      ensures log == AppendAll(fallbackMaxSize * 1_048_576, old(log), SavedRecords(bodies, outcomes))
      ensures IsSuffix(ReadBack(files, Kept(maxBackups)), AllRecords(old(log)) + SavedRecords(bodies, outcomes))
      ensures fallbackMaxSize > 0 && Size(old(log).open) < fallbackMaxSize * 1_048_576 ==>
                BoundedFiles(files, fallbackMaxSize * 1_048_576, |log.closed| - |old(log).closed|, Kept(maxBackups))
      ensures SameBeyond(old(files), files, Kept(maxBackups))
    {
      hide Represents, Size, Append, AppendAll, SameBeyond, FileAt, SavedRecords, IsOutcome;
      outcomes := [];
      NothingSaved(MaxBytes(), log);
      assert bodies[..0] == [];
      SameBeyondSelf(files, Kept(maxBackups));
      for i := 0 to |bodies|
        invariant Valid() && closed == old(closed) && |outcomes| == i
        invariant forall j :: 0 <= j < i ==> IsOutcome(closed, hasFallback, retryMax, bodies[j], attempts(j), outcomes[j])
        invariant log == AppendAll(MaxBytes(), old(log), SavedRecords(bodies[..i], outcomes))
        invariant SameBeyond(old(files), files, Kept(maxBackups))
      {
        ghost var before, f := log, files;
        var r := Publish(bodies[i], attempts(i));
        SavedStep(bodies, outcomes, i, r);
        AppendAllStep(MaxBytes(), old(log), before, SavedRecords(bodies[..i], outcomes), bodies[i], r);
        SameBeyondTwice(old(files), f, files, Kept(maxBackups), Kept(maxBackups));
        outcomes := outcomes + [r];
      }
      assert bodies[..|bodies|] == bodies;
      hide ReadBack, AllRecords, IsSuffix, BoundedFiles;
      FilesAfter(files, MaxBytes(), old(log), SavedRecords(bodies, outcomes), Kept(maxBackups));
    }

    method Close()
      requires Valid()
      modifies this`closed, this`isOpen
      ensures Valid() && closed && !isOpen
    {
      closed, isOpen := true, false;
    }
  }

  /** A directory whose backups have all moved up by one and whose `path` became path.1. */
  lemma Rotated(before: Dir, after: Dir, l: Segments, keep: nat)
    requires Represents(before, l, keep) && 0 in before && keep >= 1
    requires 0 !in after && At(after, 1) == At(before, 0)
    requires forall j: nat :: 2 <= j <= keep ==> At(after, j) == At(before, j - 1)
    ensures Represents(after, Segments(l.closed + [l.open], []), keep)
  {
    var closed' := l.closed + [l.open];
    forall i | 1 <= i <= keep ensures i in after <==> i <= |closed'| {
      assert At(after, i) == At(before, i - 1);
    }
    forall i | 1 <= i <= keep && i in after ensures i <= |closed'| && after[i] == closed'[|closed'| - i] {
      assert At(after, i) == At(before, i - 1);
    }
  }
}
