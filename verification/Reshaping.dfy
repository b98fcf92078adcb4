/** Cutting one write into pieces that fit a frame (src/outbound/vision.rs:321-357). */
module Reshaping {
  import opened Bytes
  import opened Framing
  import opened Sniffer

  /** The last place below `n` where an application_data record header seems to start. */
  function LastMarker(window: bytes, n: nat): (at: Option<nat>)
    ensures at.Some? ==> at.value < n && MatchAt(window, TLS_APPLICATION_DATA_START, at.value)
    ensures forall j: nat :: (at.Some? ==> at.value < j) && j < n ==> !MatchAt(window, TLS_APPLICATION_DATA_START, j)
  {
    if n == 0 then None
    else if MatchAt(window, TLS_APPLICATION_DATA_START, n - 1) then Some(n - 1)
    else LastMarker(window, n - 1)
  }

  /** Where to cut `rest`: at the last record header if that is not too early, else in the middle. */
  function CutPoint(rest: bytes): (at: nat)
    requires MAX_FRAME_CONTENT <= |rest|
    ensures UUID_LEN + HEADER_LEN <= at <= MAX_FRAME_CONTENT
  {
    var window := rest[..Min(MAX_FRAME_CONTENT + 3, |rest|)];
    match LastMarker(window, |window|)
    case Some(i) => if UUID_LEN + HEADER_LEN <= i <= MAX_FRAME_CONTENT then i else BUF_SIZE / 2
    case None => BUF_SIZE / 2
  }

  function Pieces(data: bytes): (pieces: seq<bytes>)
    ensures |pieces| > 0
    decreases |data|
  {
    if |data| < MAX_FRAME_CONTENT then [data]
    else [data[..CutPoint(data)]] + Pieces(data[CutPoint(data)..])
  }

  /** The last 17 03 03 that begins in the first 8172 bytes begins at `i`. */
  predicate LastRecordStart(data: bytes, i: nat) {
    && i <= 8171 && MatchAt(data, [0x17, 3, 3], i)
    && forall j: nat :: i < j <= 8171 ==> !MatchAt(data, [0x17, 3, 3], j)
  }

  /**
   * Where a write is cut first: at the last 17 03 03 that begins in its first 8172 bytes if that is at byte 21 or later,
   * and at byte 4096 otherwise.
   */
  lemma FirstCut(data: bytes)
    requires |data| >= 8171
    ensures forall i: nat :: LastRecordStart(data, i) ==> Pieces(data)[0] == data[..if i >= 21 then i else 4096]
    ensures (forall j: nat :: j <= 8171 ==> !MatchAt(data, [0x17, 3, 3], j)) ==> Pieces(data)[0] == data[..4096]
  {
    var window := data[..Min(8174, |data|)];
    forall j: nat | j <= 8171
      ensures MatchAt(window, [0x17, 3, 3], j) <==> MatchAt(data, [0x17, 3, 3], j)
    {
      if j + 3 <= |data| {
        assert window[j..j + 3] == data[j..j + 3];
      }
    }
    assert forall j: nat :: j > 8171 ==> !MatchAt(window, [0x17, 3, 3], j);
  }

  /** The source's `rposition` over three-byte windows. */
  method RPosition(window: bytes) returns (at: Option<nat>)
    ensures at == LastMarker(window, |window|)
  {
    var n: nat := |window|;
    while n > 0
      invariant n <= |window|
      invariant LastMarker(window, n) == LastMarker(window, |window|)
    {
      if MatchAt(window, TLS_APPLICATION_DATA_START, n - 1) {
        return Some(n - 1);
      }
      n := n - 1;
    }
    return None;
  }

  method Reshape(data: bytes) returns (pieces: seq<bytes>)
    ensures pieces == Pieces(data)
  {
    pieces := [];
    var rest := data;
    while |rest| >= MAX_FRAME_CONTENT
      invariant pieces + Pieces(rest) == Pieces(data)
    {
      var window := rest[..Min(MAX_FRAME_CONTENT + |TLS_APPLICATION_DATA_START|, |rest|)];
      var found := RPosition(window);
      var at := BUF_SIZE / 2;
      if found.Some? && UUID_LEN + HEADER_LEN <= found.value <= MAX_FRAME_CONTENT {
        at := found.value;
      }
      assert at == CutPoint(rest);
      Assoc(pieces, [rest[..at]], Pieces(rest[at..]));
      pieces := pieces + [rest[..at]];
      rest := rest[at..];
    }
    pieces := pieces + [rest];
  }

  /**
   * The pieces make up the input, none is over 8171 bytes, every one but the last has at least 21, and
   * the last has fewer than 8171.
   */
  lemma {:induction false} PiecesPartition(data: bytes)
    ensures Concat(Pieces(data)) == data
    ensures forall i :: 0 <= i < |Pieces(data)| ==> |Pieces(data)[i]| <= MAX_FRAME_CONTENT
    ensures forall i :: 0 <= i < |Pieces(data)| - 1 ==> UUID_LEN + HEADER_LEN <= |Pieces(data)[i]|
    ensures |Pieces(data)[|Pieces(data)| - 1]| < MAX_FRAME_CONTENT
    ensures |Pieces(data)| == 1 <==> |data| < MAX_FRAME_CONTENT
    decreases |data|
  {
    if |data| < MAX_FRAME_CONTENT {
      ConcatOne(data);
    } else {
      hide CutPoint, Concat;
      var at := CutPoint(data);
      PiecesPartition(data[at..]);
      ConcatOne(data[..at]);
      ConcatAppend([data[..at]], Pieces(data[at..]));
    }
  }

  // ---------------------------------------------------------------------------
  // Complete application_data records
  // ---------------------------------------------------------------------------

  /** `data` is exactly a run of complete records whose first byte says application_data. */
  function Complete(data: bytes): bool
    decreases |data|
  {
    if data == [] then true
    else if |data| < TLS_RECORD_HEADER_LEN || data[0] != TLS_APPLICATION_DATA_START[0] then false
    else
      var n := TLS_RECORD_HEADER_LEN + U16(data[3], data[4]);
      n <= |data| && Complete(data[n..])
  }

  method IsCompleteRecord(data: bytes) returns (complete: bool)
    ensures complete == Complete(data)
  {
    var i: nat := 0;
    while i < |data|
      invariant i <= |data| ==> Complete(data[i..]) == Complete(data)
      invariant i > |data| ==> !Complete(data)
    {
      if |data| - i < TLS_RECORD_HEADER_LEN {
        return false;
      }
      if data[i] != TLS_APPLICATION_DATA_START[0] {
        return false;
      }
      var len := U16(data[i + 3], data[i + 4]);
      if i + TLS_RECORD_HEADER_LEN + len <= |data| {
        DropDrop(data, i, TLS_RECORD_HEADER_LEN + len);
      }
      i := i + TLS_RECORD_HEADER_LEN + len;
    }
    return i == |data|;
  }

  /** One TLS record with a first byte of application_data and any version. */
  predicate IsRecord(r: bytes) {
    && 5 <= |r| && r[0] == 0x17
    && |r| == 5 + U16(r[3], r[4])
  }

  ghost predicate AllRecords(records: seq<bytes>) {
    forall i :: 0 <= i < |records| ==> IsRecord(records[i])
  }

  lemma {:induction false} RecordsComplete(records: seq<bytes>)
    requires AllRecords(records)
    ensures Complete(Concat(records))
  {
    if records != [] {
      RecordsComplete(records[1..]);
      Cut(records[0], Concat(records[1..]));
    }
  }

  lemma {:induction false} CompleteRecords(data: bytes) returns (records: seq<bytes>)
    requires Complete(data)
    ensures AllRecords(records) && Concat(records) == data
    decreases |data|
  {
    if data == [] {
      records := [];
    } else {
      var n := TLS_RECORD_HEADER_LEN + U16(data[3], data[4]);
      var rest := CompleteRecords(data[n..]);
      records := [data[..n]] + rest;
      assert Concat(records) == data[..n] + Concat(rest);
    }
  }

  // ---------------------------------------------------------------------------
  // Record-aligned reshaping
  // ---------------------------------------------------------------------------

  /** TLS 1.2/1.3 application_data records of at most `limit` bytes, header included. */
  ghost predicate Stream(records: seq<bytes>, limit: nat) {
    && AllRecords(records)
    && forall i :: 0 <= i < |records| ==> |records[i]| <= limit && records[i][..3] == TLS_APPLICATION_DATA_START
  }

  /** Where record number `k` starts. */
  function Offset(records: seq<bytes>, k: nat): nat
    requires k <= |records|
  {
    |Concat(records[..k])|
  }

  /** Every 17 03 03 in the data is the start of a record. */
  ghost predicate MarkersOnlyAtStarts(records: seq<bytes>) {
    forall at: nat | MatchAt(Concat(records), TLS_APPLICATION_DATA_START, at) ::
      exists k | 0 <= k < |records| :: at == Offset(records, k)
  }

  lemma SplitAt(records: seq<bytes>, k: nat)
    requires k <= |records|
    ensures Concat(records) == Concat(records[..k]) + Concat(records[k..])
  {
    ConcatAppend(records[..k], records[k..]);
    assert records[..k] + records[k..] == records;
  }

  lemma OffsetNext(records: seq<bytes>, k: nat)
    requires k < |records|
    ensures Offset(records, k + 1) == Offset(records, k) + |records[k]|
  {
    assert records[..k + 1] == records[..k] + [records[k]];
    ConcatAppend(records[..k], [records[k]]);
    ConcatOne(records[k]);
  }

  lemma {:induction false} OffsetsGrow(records: seq<bytes>, j: nat, k: nat)
    requires j <= k <= |records|
    ensures Offset(records, j) <= Offset(records, k)
    decreases k - j
  {
    if j < k {
      OffsetNext(records, j);
      OffsetsGrow(records, j + 1, k);
    }
  }

  /** Some record starts late enough to cut at and early enough to be seen. */
  lemma CuttableStart(records: seq<bytes>) returns (k: nat)
    requires Stream(records, 8150) && |Concat(records)| >= MAX_FRAME_CONTENT
    ensures k < |records| && UUID_LEN + HEADER_LEN <= Offset(records, k) < MAX_FRAME_CONTENT
  {
    k := 0;
    assert records[..|records|] == records;
    while Offset(records, k) < UUID_LEN + HEADER_LEN
      invariant k < |records| && Offset(records, k) < MAX_FRAME_CONTENT
      decreases |records| - k
    {
      OffsetNext(records, k);
      k := k + 1;
    }
  }

  lemma StartsTail(records: seq<bytes>, k: nat)
    requires Stream(records, 8150) && k < |records|
    ensures var tail := Concat(records[k..]); |tail| >= 3 && tail[..3] == TLS_APPLICATION_DATA_START
  {
    assert records[k] == records[k..][0];
    DropShort(records[k], Concat(records[k..][1..]), 3);
  }

  lemma MatchAfter(front: bytes, tail: bytes, pat: bytes)
    requires |pat| <= |tail| && tail[..|pat|] == pat
    ensures MatchAt(front + tail, pat, |front|)
  {
    assert (front + tail)[|front|..|front| + |pat|] == tail[..|pat|];
  }

  lemma MarkerAtStart(records: seq<bytes>, k: nat)
    requires Stream(records, 8150) && k < |records|
    ensures MatchAt(Concat(records), TLS_APPLICATION_DATA_START, Offset(records, k))
  {
    SplitAt(records, k);
    StartsTail(records, k);
    hide Concat, Stream, MatchAt;
    MatchAfter(Concat(records[..k]), Concat(records[k..]), TLS_APPLICATION_DATA_START);
  }

  /** The cut falls between two records. */
  lemma CutsAtStart(records: seq<bytes>) returns (k: nat)
    requires Stream(records, 8150) && MarkersOnlyAtStarts(records) && |Concat(records)| >= MAX_FRAME_CONTENT
    ensures 0 < k < |records| && CutPoint(Concat(records)) == Offset(records, k)
  {
    var data := Concat(records);
    var window := data[..Min(MAX_FRAME_CONTENT + 3, |data|)];
    var early := CuttableStart(records);
    MarkerAtStart(records, early);
    assert MatchAt(window, TLS_APPLICATION_DATA_START, Offset(records, early));
    var at := LastMarker(window, |window|).value;
    assert MatchAt(data, TLS_APPLICATION_DATA_START, at);
    k :| 0 <= k < |records| && at == Offset(records, k);
    assert Offset(records, 0) == 0;
  }

  lemma TailKeepsMarkers(records: seq<bytes>, k: nat)
    requires MarkersOnlyAtStarts(records) && k <= |records|
    ensures MarkersOnlyAtStarts(records[k..])
  {
    var tail := records[k..];
    SplitAt(records, k);
    forall at: nat | MatchAt(Concat(tail), TLS_APPLICATION_DATA_START, at)
      ensures exists j | 0 <= j < |tail| :: at == Offset(tail, j)
    {
      var o := Offset(records, k);
      assert Concat(records)[o + at..o + at + 3] == Concat(tail)[at..at + 3];
      assert MatchAt(Concat(records), TLS_APPLICATION_DATA_START, o + at);
      var j :| 0 <= j < |records| && o + at == Offset(records, j);
      if j < k {
        assert at == 0 by { OffsetsGrow(records, j, k); }
        assert MatchAt(Concat(tail), TLS_APPLICATION_DATA_START, 0);
        assert tail != [] && Offset(tail, 0) == 0;
      } else {
        ConcatAppend(records[..k], tail[..j - k]);
        assert records[..j] == records[..k] + tail[..j - k];
        assert at == Offset(tail, j - k);
      }
    }
  }

  /** Every piece starts with a record header and is itself a run of complete records. */
  ghost predicate Aligned(records: seq<bytes>) {
    forall i :: 0 <= i < |Pieces(Concat(records))| ==>
      var piece := Pieces(Concat(records))[i];
      |piece| >= 3 && piece[..3] == TLS_APPLICATION_DATA_START && Complete(piece)
  }

  /**
   * Record-aligned reshaping: if the input is a run of complete records of at most 8150 bytes and the
   * bytes 17 03 03 occur only where records start, every piece starts with a record header and is
   * itself a run of complete records.
   */
  lemma {:induction false} PiecesAligned(records: seq<bytes>)
    requires records != [] && Stream(records, 8150) && MarkersOnlyAtStarts(records)
    ensures Aligned(records)
    decreases |records|
  {
    var data := Concat(records);
    if |data| < MAX_FRAME_CONTENT {
      RunStarts(records);
    } else {
      var k := CutsAtStart(records);
      SplitAt(records, k);
      Cut(Concat(records[..k]), Concat(records[k..]));
      RunStarts(records[..k]);
      TailKeepsMarkers(records, k);
      PiecesAligned(records[k..]);
    }
  }

  lemma RunStarts(records: seq<bytes>)
    requires records != [] && Stream(records, 8150)
    ensures var data := Concat(records);
            |data| >= 3 && data[..3] == TLS_APPLICATION_DATA_START && Complete(data)
  {
    RecordsComplete(records);
    DropShort(records[0], Concat(records[1..]), 3);
  }

  /** A last record header too early to cut at sends the cut to the middle. */
  lemma CutInTheMiddle(data: bytes)
    requires |data| == MAX_FRAME_CONTENT && MatchAt(data, TLS_APPLICATION_DATA_START, 20)
    requires forall j :: 20 < j < |data| ==> data[j] != 0x17
    ensures Pieces(data) == [data[..4096], data[4096..]]
  {
    var window := data[..Min(MAX_FRAME_CONTENT + 3, |data|)];
    assert window == data;
    var at := LastMarker(data, |data|).value;
    assert data[at] == data[at..at + 3][0];
    assert Pieces(data[4096..]) == [data[4096..]];
  }

  lemma RecordOf(n: nat) returns (r: bytes)
    requires n < 0x1_0000
    ensures IsRecord(r) && |r| == TLS_RECORD_HEADER_LEN + n && r[..3] == TLS_APPLICATION_DATA_START
    ensures n == 0 || n == 8146 ==> forall j :: 0 < j < |r| ==> r[j] != 0x17
  {
    var len := Be16(n);
    r := [0x17, 0x03, 0x03, len[0], len[1]] + Zeros(n);
  }

  /** 8150 is the largest limit for which this holds: with 8151 a piece can start inside a record. */
  lemma LimitIsTight() returns (records: seq<bytes>)
    ensures records != [] && Stream(records, 8151) && MarkersOnlyAtStarts(records)
    ensures var pieces := Pieces(Concat(records));
            |pieces| == 2 && pieces[1] != [] && pieces[1][0] != TLS_APPLICATION_DATA_START[0]
  {
    var e := RecordOf(0);
    var l := RecordOf(8146);
    records := [e, e, e, e, l];
    var data, front := Concat(records), e + e + e + e;
    assert data == front + l by { ConcatFive(e, l); }
    assert data[20..23] == l[..3];
    forall j | 20 < j < |data|
      ensures data[j] != 0x17
    {
      assert data[j] == l[j - 20];
    }
    CutInTheMiddle(data);
    assert data[4096..][0] == data[4096];
    FiveMarkers(e, l);
  }

  /** Streams of records up to `n` bytes with markers only at their starts are reshaped record by record. */
  ghost predicate AlwaysAligned(n: nat) {
    forall records | records != [] && Stream(records, n) && MarkersOnlyAtStarts(records) :: Aligned(records)
  }

  /** The exact limit. */
  lemma AlignedIff(n: nat)
    ensures AlwaysAligned(n) <==> n <= 8150
  {
    hide MarkersOnlyAtStarts, Aligned, Pieces;
    if n <= 8150 {
      forall records | records != [] && Stream(records, n) && MarkersOnlyAtStarts(records)
        ensures Aligned(records)
      {
        LargerLimit(records, n, 8150);
        PiecesAligned(records);
      }
    } else {
      var records := LimitIsTight();
      LargerLimit(records, 8151, n);
      Misaligned(records);
    }
  }

  lemma LargerLimit(records: seq<bytes>, small: nat, large: nat)
    requires Stream(records, small) && small <= large
    ensures Stream(records, large)
  {
  }

  lemma Misaligned(records: seq<bytes>)
    requires |Pieces(Concat(records))| == 2
    requires var p := Pieces(Concat(records))[1]; p != [] && p[0] != TLS_APPLICATION_DATA_START[0]
    ensures !Aligned(records)
  {
    hide Pieces, Complete;
    var p := Pieces(Concat(records))[1];
    assert |p| >= 3 ==> p[..3][0] == p[0];
  }

  lemma FiveMarkers(e: bytes, l: bytes)
    requires |e| == 5 && (forall j | 0 < j < 5 :: e[j] != 0x17) && (forall j | 0 < j < |l| :: l[j] != 0x17)
    ensures MarkersOnlyAtStarts([e, e, e, e, l])
  {
    var records, data := [e, e, e, e, l], e + e + e + e + l;
    ConcatFive(e, l);
    FiveOffsets(e, l);
    forall at: nat | MatchAt(data, TLS_APPLICATION_DATA_START, at)
      ensures exists k | 0 <= k < |records| :: at == Offset(records, k)
    {
      assert data[at] == data[at..at + 3][0] == 0x17;
      assert data[at] == if at < 20 then e[at % 5] else l[at - 20];
      var k := if at < 20 then at / 5 else 4;
      assert at == 5 * k == Offset(records, k);
    }
  }

  lemma FiveOffsets(e: bytes, l: bytes)
    requires |e| == 5
    ensures forall k | 0 <= k < 5 :: Offset([e, e, e, e, l], k) == 5 * k
  {
    var r := [e, e, e, e, l];
    assert Offset(r, 0) == 0;
    OffsetNext(r, 0);
    OffsetNext(r, 1);
    OffsetNext(r, 2);
    OffsetNext(r, 3);
  }

  lemma ConcatFive(e: bytes, l: bytes)
    ensures Concat([e, e, e, e, l]) == e + e + e + e + l
  {
    ConcatAppend([e, e, e, e], [l]);
    ConcatOne(l);
    ConcatAppend([e, e], [e, e]);
    ConcatAppend([e], [e]);
    ConcatOne(e);
    assert [e, e, e, e] + [l] == [e, e, e, e, l];
    assert [e, e] + [e, e] == [e, e, e, e] && [e] + [e] == [e, e];
    Assoc(e + e, e, e);
  }
}
