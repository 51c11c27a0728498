/** The tail reader (internal/input/file/harvester.go) for utf-8: a buffered reader over a file that
    other processes only append to. Appends may come before any read, and a read may return any
    non-empty part of what is there, up to the buffer size. */
module Harvester {
  import opened Options
  import opened Bytes
  import opened Sequences
  import opened Lines
  import opened OffsetRegistry

  const DEFAULT_BUFFER_SIZE: nat := 64 * 1024
  /** bufio's least buffer. */
  const MIN_BUFFER_SIZE: nat := 16
  const SAVE_INTERVAL: int := 5_000_000_000

  function Length(chunks: seq<Bytes>): nat {
    if chunks == [] then 0 else |chunks[0]| + Length(chunks[1..])
  }

  /** A file on disk. `coming` is what other processes will append, one entry before each read. */
  class File {
    var content: Bytes
    var coming: seq<Bytes>

    constructor (content: Bytes, coming: seq<Bytes>)
      ensures this.content == content && this.coming == coming
    {
      this.content, this.coming := content, coming;
    }

    /** The next append arrives. */
    method Arrive()
      modifies this
      ensures old(content) <= content
      ensures |content| + Length(coming) == old(|content| + Length(coming))
    {
      if |coming| > 0 {
        content, coming := content + coming[0], coming[1..];
      }
    }
  }

  function BufferSize(configured: int): nat {
    if configured <= 0 then DEFAULT_BUFFER_SIZE
    else if configured < MIN_BUFFER_SIZE then MIN_BUFFER_SIZE
    else configured
  }

  /** The part of the content that lies in [from, to). */
  function Range(content: Bytes, from: nat, to: nat): Bytes {
    if from <= to <= |content| then content[from..to] else []
  }

  lemma RangeGrows(content: Bytes, more: Bytes, from: nat, to: nat)
    requires content <= more && (from <= to <= |content| || from == to)
    ensures Range(more, from, to) == Range(content, from, to)
  {
  }

  class Harvester {
    const file: File
    const path: string
    const inode: nat
    const bufferSize: nat
    const registry: OffsetRegistry?
    /** Position of the open file, and what the buffered reader has read ahead. */
    var pos: nat
    var buffer: Bytes
    var offset: int
    var lastSave: int
    /** The lines sent to the channel. */
    var lines: seq<Bytes>
    ghost var start: nat
    /** What ReadString returned for each of them. */
    ghost var pieces: seq<Bytes>

    /** The pieces delivered so far and the buffered rest are, in order, exactly the bytes from the
        start position to the current one; the tracked offset is the current position. */
    ghost predicate Valid()
      reads this, file
    {
      && bufferSize > 0
      && Consistent()
      && ArePieces(pieces) && lines == ChompAll(pieces)
      && offset == pos
    }

    ghost predicate Consistent()
      reads this, file
    {
      && InRange()
      && Concat(pieces) + buffer == Range(file.content, start, pos)
    }

    constructor (file: File, path: string, inode: nat, fromBegin: bool, bufferSize: int, registry: OffsetRegistry?, now: int)
      ensures Valid() && pieces == [] && buffer == []
      ensures this.file == file && this.path == path && this.inode == inode && this.registry == registry
      ensures this.bufferSize == if bufferSize <= 0 then 65_536 else if bufferSize < 16 then 16 else bufferSize
      ensures fromBegin ==> start == 0
      ensures !fromBegin && (registry == null || registry.Lookup(path, inode) <= 0) ==> start == |file.content|
      ensures !fromBegin && registry != null && registry.Lookup(path, inode) > 0 ==> start == registry.Lookup(path, inode)
    {
      var size := BufferSize(bufferSize);
      var startOff := 0;
      if !fromBegin && registry != null {
        startOff := registry.Lookup(path, inode);
      }
      if startOff <= 0 && !fromBegin {
        startOff := |file.content|;
      }
      this.file, this.path, this.inode, this.bufferSize, this.registry := file, path, inode, size, registry;
      pos, offset, start := startOff, startOff, startOff;
      buffer, lines, pieces, lastSave := [], [], [], now;
    }

    /** One read of the file into the empty buffer; false at the end of the file. */
    method Fill() returns (more: bool)
      requires buffer == [] && bufferSize > 0 && (pos <= |file.content| || pos == start) && start <= pos
      modifies file, this`pos, this`buffer
      ensures old(file.content) <= file.content
      ensures |file.content| + Length(file.coming) == old(|file.content| + Length(file.coming))
      ensures !more ==> pos == old(pos) && buffer == [] && pos >= |file.content|
      ensures more ==> old(pos) < pos <= |file.content| && buffer == file.content[old(pos)..pos] && |buffer| <= bufferSize
    {
      file.Arrive();
      if pos >= |file.content| {
        return false;
      }
      var available := |file.content| - pos;
      var n: nat :| 0 < n <= bufferSize && n <= available;
      buffer := file.content[pos..pos + n];
      pos := pos + n;
      return true;
    }

    /** The position is one that reading from `start` can be at. */
    ghost predicate InRange()
      reads this, file
    {
      start <= pos && (pos <= |file.content| || pos == start)
    }

    /** Fill, seen from the start position: what was read so far grows by the buffer. */
    method Refill(ghost sofar: Bytes) returns (more: bool)
      requires buffer == [] && bufferSize > 0 && InRange() && sofar == Range(file.content, start, pos)
      modifies file, this`pos, this`buffer
      ensures old(file.content) <= file.content && InRange()
      ensures |file.content| + Length(file.coming) == old(|file.content| + Length(file.coming))
      ensures sofar + buffer == Range(file.content, start, pos)
      ensures if more then buffer != [] && old(pos) < pos <= |file.content| else buffer == [] && pos == old(pos) >= |file.content|
    {
      ghost var p, c := pos, file.content;
      more := Fill();
      RangeGrows(c, file.content, start, p);
      if more {
        RangeJoins(file.content, start, p, pos);
      }
    }

    /** ReadString('\n'): a whole line, or whatever there was before the end of the file. */
    method ReadString() returns (piece: Bytes, eof: bool)
      requires bufferSize > 0 && Consistent()
      modifies file, this`pos, this`buffer
      ensures old(file.content) <= file.content && InRange()
      ensures Concat(pieces) + piece + buffer == Range(file.content, start, pos)
      ensures piece != [] ==> IsPiece(piece)
      ensures if eof then CaughtUp() && !EndsLine(piece) else EndsLine(piece)
      ensures piece == [] ==> pos == old(pos)
    {
      hide Concat, Range;
      ghost var delivered := Concat(pieces);
      piece := [];
      assert delivered + [] == delivered;
      while true
        invariant old(file.content) <= file.content && InRange()
        invariant delivered + piece + buffer == Range(file.content, start, pos)
        invariant LINE_FEED !in piece
        invariant piece + buffer == [] ==> pos == old(pos)
        decreases |file.content| + Length(file.coming) - pos
      {
        var i := FirstNewline(buffer);
        if i < |buffer| {
          LineTaken(delivered, piece, buffer, i);
          piece, buffer := piece + buffer[..i + 1], buffer[i + 1..];
          return piece, false;
        }
        assert buffer[..i] == buffer && delivered + piece + buffer == delivered + (piece + buffer);
        piece, buffer := piece + buffer, [];
        var more := Refill(delivered + piece);
        if !more {
          return piece, true;
        }
      }
    }

    /** Reads one line or what there is, and delivers it unless it is empty. At the end of the file
        everything the file holds from the start position on has been delivered. */
    method ReadOne() returns (eof: bool)
      requires Valid()
      modifies file, this`pos, this`buffer, this`lines, this`pieces, this`offset
      ensures Valid() && old(file.content) <= file.content
      ensures old(lines) <= lines && old(pieces) <= pieces
      ensures eof ==> CaughtUp()
      ensures |pieces| == |lines| <= |old(lines)| + 1
      ensures !eof ==> |lines| == |old(lines)| + 1 && EndsLine(pieces[|pieces| - 1])
      ensures eof && |lines| > |old(lines)| ==> !EndsLine(pieces[|pieces| - 1])
      ensures |pieces| - |old(pieces)| == |lines| - |old(lines)|
    {
      hide Concat, ChompAll, Range, EndsLine, IsPiece, ArePieces;
      var piece;
      piece, eof := ReadString();
      ChompAllLength(pieces);
      NothingEndsNoLine();
      if |piece| > 0 {
        OnePieceMore(pieces, piece);
        lines := lines + [Chomp(piece)];
        pieces := pieces + [piece];
        offset := pos;
      } else {
        EmptyConcat(Concat(pieces));
      }
    }

    /** Nothing read ahead, and nothing in the file beyond the current position. */
    ghost predicate CaughtUp()
      reads this, file
    {
      buffer == [] && pos >= |file.content|
    }

    /** Rebuilds the buffered reader at the current position. It is called at the end of the file,
        where nothing has been read ahead, so nothing is dropped. */
    method WaitMore()
      requires Valid() && CaughtUp()
      modifies file, this`buffer
      ensures Valid() && buffer == [] && old(file.content) <= file.content
    {
      buffer := [];
      ghost var c := file.content;
      file.Arrive();
      RangeGrows(c, file.content, start, pos);
    }

    /** Saves the tracked offset under this path and inode, at most once per interval. */
    method MaybeSaveOffset(now: int)
      requires Valid() && (registry != null ==> registry.Valid())
      modifies this`lastSave, registry
      ensures Valid() && (registry != null ==> registry.Valid())
      ensures registry != null && now - old(lastSave) >= 5_000_000_000 ==> lastSave == now && Saved(offset)
      ensures registry == null || now - old(lastSave) < 5_000_000_000 ==> lastSave == old(lastSave)
      ensures registry != null && now - old(lastSave) < 5_000_000_000 ==> registry.data == old(registry.data)
    {
      if registry == null || now - lastSave < SAVE_INTERVAL {
        return;
      }
      registry.Set(path, inode, offset);
      lastSave := now;
    }

    /** The registry gives `off` for this path and inode, and what it gave before for all others. */
    twostate predicate Saved(off: int)
      requires registry != null
      reads this, registry
    {
      forall p, i: nat :: registry.Lookup(p, i) == if (p, i) == (path, inode) then off else old(registry.Lookup(p, i))
    }

    /** The reading loop until it is closed, which may be at any wait; `clock` times the saves and
        `ended` lists the rounds that read a whole line. After the last of them the offset was
        saved less than 5 s ago. */
    method Loop(rounds: nat, clock: nat -> int) returns (ghost ended: seq<nat>)
      requires Valid() && (registry != null ==> registry.Valid())
      modifies this, file, registry
      ensures Valid() && (registry != null ==> registry.Valid())
      ensures old(file.content) <= file.content && old(lines) <= lines && old(pieces) <= pieces
      ensures start == old(start)
      ensures WholeLines(pieces) == WholeLines(old(pieces)) + |ended|
      ensures forall i :: 0 <= i < |ended| ==> ended[i] < rounds && (i > 0 ==> ended[i - 1] < ended[i])
      ensures registry != null && ended != [] ==> clock(ended[|ended| - 1]) - lastSave < 5_000_000_000
      ensures registry == null || ended == [] ==> lastSave == old(lastSave)
    {
      hide Concat, ChompAll, Range, ArePieces, EndsLine, WholeLines;
      ended := [];
      for round := 0 to rounds
        invariant Valid() && (registry != null ==> registry.Valid())
        invariant old(file.content) <= file.content && old(lines) <= lines && old(pieces) <= pieces
        invariant start == old(start)
        invariant WholeLines(pieces) == WholeLines(old(pieces)) + |ended|
        invariant forall i :: 0 <= i < |ended| ==> ended[i] < round && (i > 0 ==> ended[i - 1] < ended[i])
        invariant registry != null && ended != [] ==> clock(ended[|ended| - 1]) - lastSave < 5_000_000_000
        invariant registry == null || ended == [] ==> lastSave == old(lastSave)
      {
        ghost var before := pieces;
        var eof := ReadOne();
        OneReading(before, pieces);
        if eof {
          WaitMore();
        } else {
          MaybeSaveOffset(clock(round));
          ended := ended + [round];
        }
      }
    }

    /** Close saves the tracked offset for this path and inode. */
    method Close()
      requires Valid() && (registry != null ==> registry.Valid())
      modifies registry
      ensures Valid() && (registry != null ==> registry.Valid() && Saved(offset))
    {
      if registry != null {
        registry.Set(path, inode, offset);
      }
    }
  }

  /** How many pieces are whole lines. */
  ghost function WholeLines(pieces: seq<Bytes>): nat {
    if pieces == [] then 0
    else WholeLines(pieces[..|pieces| - 1]) + (if EndsLine(pieces[|pieces| - 1]) then 1 else 0)
  }

  lemma OneReading(before: seq<Bytes>, after: seq<Bytes>)
    requires before <= after && |after| <= |before| + 1
    ensures WholeLines(after) == WholeLines(before) + if |after| > |before| && EndsLine(after[|before|]) then 1 else 0
  {
    if |after| > |before| {
      assert after[..|after| - 1] == before;
    } else {
      assert after == before;
    }
  }

  lemma NothingEndsNoLine()
    ensures !EndsLine([])
  {
  }

  lemma OnePieceMore(pieces: seq<Bytes>, piece: Bytes)
    requires ArePieces(pieces) && IsPiece(piece)
    ensures ArePieces(pieces + [piece]) && Concat(pieces + [piece]) == Concat(pieces) + piece
    ensures ChompAll(pieces + [piece]) == ChompAll(pieces) + [Chomp(piece)]
  {
    hide IsPiece;
    ConcatAppend(pieces, piece);
    ChompAllAppend(pieces, piece);
  }

  lemma LineTaken(delivered: Bytes, piece: Bytes, buffer: Bytes, i: nat)
    requires i < |buffer| && buffer[i] == LINE_FEED && LINE_FEED !in buffer[..i] && LINE_FEED !in piece
    ensures delivered + (piece + buffer[..i + 1]) + buffer[i + 1..] == delivered + piece + buffer
    ensures IsPiece(piece + buffer[..i + 1]) && EndsLine(piece + buffer[..i + 1])
  {
  }

  lemma RangeJoins(content: Bytes, from: nat, mid: nat, to: nat)
    requires from <= mid <= to <= |content|
    ensures Range(content, from, mid) + content[mid..to] == Range(content, from, to)
  {
  }

  // ----- what has been delivered -----

  lemma DeliveredRange(h: Harvester)
    requires h.Valid()
    ensures |h.buffer| <= h.pos - h.start
    ensures Concat(h.pieces) == Range(h.file.content, h.start, h.pos - |h.buffer|)
  {
    var r := Range(h.file.content, h.start, h.pos);
    assert r[..|Concat(h.pieces)|] == Concat(h.pieces);
  }

  /** At any moment, whatever the read sizes, the buffer size and the timing of appends: the lines
      delivered, put together, are the file's bytes from the start position up to what has been
      delivered, without the newlines; they are the plain split of those bytes exactly when every
      delivered piece but the last ended a line; and the tracked offset is the start position plus
      the bytes delivered exactly when nothing has been read ahead. */
  lemma DeliveredLines(h: Harvester)
    requires h.Valid()
    ensures |h.buffer| <= h.pos - h.start
    ensures var text := Range(h.file.content, h.start, h.pos - |h.buffer|);
            && Concat(h.lines) == WithoutNewlines(text)
            && (h.lines == SplitLines(text) <==> OpenOnlyAtEnd(h.pieces))
            && (h.offset == h.start + |text| <==> h.buffer == [])
            && (h.CaughtUp() && h.start <= |h.file.content| ==> text == h.file.content[h.start..])
  {
    DeliveredRange(h);
    DeliveredBytes(h.pieces);
    LinesAreSplitIff(h.pieces);
  }

  /** Starting at the saved offset, or at the end of a file grown to `size` when it is 0, is exact
      under this condition only. */
  lemma ResumesExactlyIff(h: Harvester, size: nat)
    requires h.Valid() && h.start <= |h.file.content| <= size
    ensures (if h.offset > 0 then h.offset else size) == h.start + |Concat(h.pieces)| <==>
            if h.offset > 0 then h.buffer == [] else size == 0
  {
  }

  /** Closing and opening again: the second reader starts exactly where the first one's deliveries
      ended if and only if nothing was read ahead and the saved offset is not 0; a saved 0 reads as
      "not saved", which starts at the end of the file and is exact only while the file is empty. */
  method Reopen(h: Harvester, bufferSize: int, now: int) returns (next: Harvester)
    requires h.Valid() && h.registry != null && h.registry.Valid() && h.start <= |h.file.content|
    modifies h.registry, h.file
    ensures fresh(next) && next.Valid() && next.file == h.file && old(h.file.content) <= h.file.content
    ensures next.start == h.start + |Concat(h.pieces)| <==> if h.offset > 0 then h.buffer == [] else |h.file.content| == 0
    ensures h.offset > 0 && h.buffer == [] ==>
              Concat(h.pieces) + Concat(next.pieces) + next.buffer == Range(h.file.content, h.start, next.pos)
  {
    h.Close();
    h.file.Arrive();
    next := new Harvester(h.file, h.path, h.inode, false, bufferSize, h.registry, now);
  }

  /** A reader that starts at the beginning has delivered exactly the file whenever it is caught up;
      one that starts elsewhere, the file from there on. */
  method Tail(file: File, path: string, inode: nat, fromBegin: bool, bufferSize: int, registry: OffsetRegistry?,
              rounds: nat, clock: nat -> int) returns (h: Harvester)
    requires registry != null ==> registry.Valid()
    modifies file, registry
    ensures fresh(h) && h.Valid() && h.file == file && old(file.content) <= file.content
    ensures fromBegin ==> h.pos <= |file.content| && Concat(h.pieces) + h.buffer == file.content[..h.pos]
    ensures fromBegin && h.CaughtUp() ==> Concat(h.pieces) == file.content && Concat(h.lines) == WithoutNewlines(file.content)
    ensures !fromBegin && registry == null && h.CaughtUp() ==> Concat(h.pieces) == file.content[|old(file.content)|..]
    ensures !fromBegin && registry != null && 0 < old(registry.Lookup(path, inode)) <= |file.content| && h.CaughtUp() ==>
              Concat(h.pieces) == file.content[old(registry.Lookup(path, inode))..]
  {
    h := new Harvester(file, path, inode, fromBegin, bufferSize, registry, clock(0));
    ghost var ended := h.Loop(rounds, clock);
    DeliveredLines(h);
  }

  /** A reader that resumed exactly carries the delivery on: the pieces of both sessions together
      are the bytes from the first start position on, none lost and none twice. */
  lemma SessionsJoin(content: Bytes, pieces: seq<Bytes>, from: nat, mid: nat, h: Harvester)
    requires h.Valid() && content <= h.file.content && from <= mid <= |content|
    requires Concat(pieces) == Range(content, from, mid) && h.start == mid
    ensures Concat(pieces + h.pieces) + h.buffer == Range(h.file.content, from, h.pos)
  {
    hide Concat;
    ConcatConcat(pieces, h.pieces);
    RangeGrows(content, h.file.content, from, mid);
    RangeJoins(h.file.content, from, mid, h.pos);
    ConcatAssociates(Concat(pieces), Concat(h.pieces), h.buffer);
  }
}
