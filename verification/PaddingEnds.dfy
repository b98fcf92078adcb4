/** When one write ends padding, and what it sends (src/outbound/vision.rs:281-318). Commands are given as numbers. */
module PaddingEnds {
  import opened Bytes
  import opened Framing
  import opened Sniffer
  import opened Reshaping
  import opened Padding

  /** A piece of at least six bytes that starts like a TLS application_data record. */
  predicate StartsRecord(piece: bytes) {
    |piece| >= 6 && piece[..3] == [0x17, 0x03, 0x03]
  }

  predicate SomeStarts(pieces: seq<bytes>) {
    exists i :: 0 <= i < |pieces| && StartsRecord(pieces[i])
  }

  /** `data` is nothing but whole application_data records. */
  ghost predicate IsRun(data: bytes) {
    exists records: seq<bytes> :: AllRecords(records) && Concat(records) == data
  }

  /** The budget is nearly spent and no TLS 1.2 or above was seen. */
  predicate OutOfBudget(t: Traffic) {
    t.budget <= 1 && !t.isTls12OrAbove
  }

  /** The command that ends padding: 2 for Direct, 1 for End. */
  function Terminal(t: Traffic): byte {
    if t.enableXtls then 2 else 1
  }

  lemma RunIff(data: bytes)
    ensures Complete(data) <==> IsRun(data)
  {
    if Complete(data) {
      var records := CompleteRecords(data);
    }
    if IsRun(data) {
      var records: seq<bytes> :| AllRecords(records) && Concat(records) == data;
      RecordsComplete(records);
    }
  }

  lemma OnePiece(data: bytes)
    requires |data| < 8171
    ensures Pieces(data) == [data]
  {
  }

  /**
   * Whole application_data records in one write of fewer than 8171 bytes end padding: one frame, Direct on an XTLS
   * connection and End otherwise, long-padded, and the framer is done.
   */
  lemma AppDataEndsPadding(p: Pad, t: Traffic, records: seq<bytes>)
    requires p.padding && t.isTls && AllRecords(records)
    requires 6 <= |Concat(records)| < 8171 && Concat(records)[..3] == [0x17, 0x03, 0x03]
    ensures Padded(p, t, Concat(records))
         == Plan(Pad(false, t.enableXtls, None), [Frame(p.uuid, Terminal(t), Concat(records), true)], [])
  {
    var data := Concat(records);
    RecordsComplete(records);
    OnePiece(data);
    hide Pieces, Complete, Concat, Planned;
    PlannedOne(p, t, data, t.isTls);
  }

  lemma PlannedOne(p: Pad, t: Traffic, b: bytes, longPadding: bool)
    requires t.isTls && StartsRecord(b)
    ensures Planned(p, t, [b], true, longPadding)
         == Plan(Pad(false, t.enableXtls, None), [Frame(p.uuid, Terminal(t), b, true)], [])
  {
    var pieces: seq<bytes> := [b];
    assert pieces[1..] == [];
    assert HandshakeOver(t, b, true);
    assert [Frame(p.uuid, Terminal(t), b, true)] + [] == [Frame(p.uuid, Terminal(t), b, true)];
  }

  /** Pieces that all start records end padding with the last one. */
  lemma {:induction false} RecordPiecesEnd(p: Pad, t: Traffic, pieces: seq<bytes>, longPadding: bool)
    requires pieces != [] && t.isTls && (t.enableXtls ==> t.isTls12OrAbove)
    requires forall i :: 0 <= i < |pieces| ==> |pieces[i]| >= 3 && pieces[i][..3] == [0x17, 0x03, 0x03]
    requires forall i :: 0 <= i < |pieces| - 1 ==> |pieces[i]| >= 6
    requires |pieces[0]| >= 6 || (!p.padding && p.direct == t.enableXtls)
    ensures var plan := Planned(p, t, pieces, true, longPadding);
            && plan.p == Pad(false, t.enableXtls, None) && plan.tail == [] && |plan.frames| == |pieces|
            && forall i :: 0 <= i < |pieces| ==>
                 && plan.frames[i].content == pieces[i]
                 && plan.frames[i].command == if i == |pieces| - 1 then Terminal(t) else 0
    decreases |pieces|
  {
    if |pieces| > 1 {
      assert forall i :: 0 <= i < |pieces[1..]| ==> pieces[1..][i] == pieces[i + 1];
      if |pieces[0]| >= 6 {
        RecordPiecesEnd(Pad(false, t.enableXtls, None), t, pieces[1..], false);
      }
    } else {
      assert pieces[1..] == [];
    }
  }

  /** The same for a longer write of records that are cut only between records. */
  lemma LongAppDataEndsPadding(p: Pad, t: Traffic, records: seq<bytes>)
    requires p.padding && t.isTls && (t.enableXtls ==> t.isTls12OrAbove)
    requires records != [] && Stream(records, 8150) && MarkersOnlyAtStarts(records) && |Concat(records)| >= 8171
    ensures var plan := Padded(p, t, Concat(records));
            && plan.p == Pad(false, t.enableXtls, None) && plan.tail == []
            && |plan.frames| == |Pieces(Concat(records))| >= 2
            && forall i :: 0 <= i < |plan.frames| ==>
                 && plan.frames[i].content == Pieces(Concat(records))[i]
                 && plan.frames[i].command == if i == |plan.frames| - 1 then Terminal(t) else 0
  {
    var data := Concat(records);
    PiecesAligned(records);
    PiecesPartition(data);
    RecordsComplete(records);
    hide Pieces, Concat, Stream, MarkersOnlyAtStarts;
    RecordPiecesEnd(p, t, Pieces(data), t.isTls);
  }

  lemma {:induction false} PlannedEndsIff(p: Pad, t: Traffic, pieces: seq<bytes>, complete: bool, longPadding: bool)
    ensures !Planned(p, t, pieces, complete, longPadding).p.padding <==>
            || !p.padding
            || (pieces != [] && OutOfBudget(t))
            || (t.isTls && complete && SomeStarts(pieces))
    decreases |pieces|
  {
    if pieces != [] {
      var over := t.isTls && complete && StartsRecord(pieces[0]);
      if over {
        PlannedEndsIff(Pad(false, t.enableXtls, None), t, pieces[1..], complete, false);
      } else if !OutOfBudget(t) {
        PlannedEndsIff(p.(uuid := None), t, pieces[1..], complete, longPadding);
        assert forall i :: 0 <= i < |pieces[1..]| ==> pieces[1..][i] == pieces[i + 1];
        if SomeStarts(pieces) {
          var i :| 0 <= i < |pieces| && StartsRecord(pieces[i]);
          if i > 0 {
            assert StartsRecord(pieces[1..][i - 1]);
          }
        }
      }
    }
  }

  /** A write ends padding in exactly two ways: the budget runs out, or it is whole records with a piece that starts one. */
  lemma WriteEndsIff(p: Pad, t: Traffic, data: bytes)
    requires p.padding
    ensures !Padded(p, t, data).p.padding <==>
            || OutOfBudget(t)
            || (t.isTls && IsRun(data) && SomeStarts(Pieces(data)))
  {
    hide Pieces, Complete, Planned, IsRun, SomeStarts;
    RunIff(data);
    PlannedEndsIff(p, t, Pieces(data), Complete(data), t.isTls);
  }

  lemma {:induction false} PlannedContinues(p: Pad, t: Traffic, pieces: seq<bytes>, complete: bool, longPadding: bool)
    requires Planned(p, t, pieces, complete, longPadding).p.padding
    ensures var plan := Planned(p, t, pieces, complete, longPadding);
            && plan.tail == [] && |plan.frames| == |pieces|
            && plan.p == Pad(true, p.direct, if pieces == [] then p.uuid else None)
            && forall i :: 0 <= i < |pieces| ==>
                 plan.frames[i] == Frame(if i == 0 then p.uuid else None, 0, pieces[i], longPadding)
    decreases |pieces|
  {
    PlannedEndsIff(p, t, pieces, complete, longPadding);
    if pieces != [] {
      if HandshakeOver(t, pieces[0], complete) {
        assert StartsRecord(pieces[0]);
      } else {
        PlannedContinues(p.(uuid := None), t, pieces[1..], complete, longPadding);
      }
    }
  }

  /** A write that does not end padding is one Continue frame for each piece, long-padded while TLS is going on. */
  lemma WriteContinues(p: Pad, t: Traffic, data: bytes)
    requires p.padding && Padded(p, t, data).p.padding
    ensures var plan := Padded(p, t, data);
            && plan.tail == [] && |plan.frames| == |Pieces(data)| && plan.p == Pad(true, p.direct, None)
            && forall i :: 0 <= i < |plan.frames| ==>
                 plan.frames[i] == Frame(if i == 0 then p.uuid else None, 0, Pieces(data)[i], t.isTls)
  {
    hide Pieces, Complete, Planned;
    PlannedContinues(p, t, Pieces(data), Complete(data), t.isTls);
  }

  /** Out of budget: the first piece goes out as an End frame, the rest of the write as it is. */
  lemma WriteGivesUp(p: Pad, t: Traffic, data: bytes)
    requires p.padding && OutOfBudget(t)
    requires !(t.isTls && IsRun(data) && StartsRecord(Pieces(data)[0]))
    ensures var first := Pieces(data)[0];
            && first <= data
            && Padded(p, t, data)
            == Plan(Pad(false, p.direct, None), [Frame(p.uuid, 1, first, t.isTls)], data[|first|..])
  {
    var pieces := Pieces(data);
    PiecesPartition(data);
    RunIff(data);
    hide Pieces, Complete, IsRun;
    Cut(pieces[0], Concat(pieces[1..]));
  }
}
