/**
 Label construction: the label vector of a completed window, the stored label
 record, and the offset the event reader resumes from after a restart.

 The stream reader and writer, the key-value store, JSON encoding, the clock
 and the asynchronous run loop are not part of this model. The clock reading is
 a parameter, and the store's contents are a sequence of records.
 */
module Labeler {
  import opened Options
  import opened Checks
  import opened Handler

  /** A label record as stored and published. The label vector is `values`; its slots are 1.0 or 0.0. */
  datatype LabelStored = LabelStored(
    eventId: nat,
    timestamp: nat,
    offsetFrom: nat,
    offsetTo: nat,
    values: seq<real>)

  /** What indexing and `result()` demand of the resolved checks: an ordinal inside the label and a set latch. */
  predicate LabelReady(complete: seq<Check>, width: nat)
  {
    forall i :: 0 <= i < |complete| ==> complete[i].ordinal as int < width && complete[i].result.Some?
  }

  /** The slot value a resolved check writes. */
  function Score(c: Check): real
    requires c.result.Some?
  {
    if c.Value() then 1.0 else 0.0
  }

  /** The label built from the resolved checks in order, starting from all zeros. */
  function LabelOf(complete: seq<Check>, width: nat): (lab: seq<real>)
    requires LabelReady(complete, width)
    ensures |lab| == width
  {
    if complete == [] then seq(width, _ => 0.0)
    else
      var c := complete[|complete| - 1];
      LabelOf(complete[..|complete| - 1], width)[c.ordinal as int := Score(c)]
  }

  /** `make_label`: writes each resolved check's outcome at its ordinal into a zeroed label. */
  method MakeLabel(complete: seq<Check>, width: nat) returns (lab: seq<real>)
    requires LabelReady(complete, width)
    ensures lab == LabelOf(complete, width)
  {
    var slots := new real[width](_ => 0.0);
    assert slots[..] == LabelOf([], width);
    for i := 0 to |complete|
      invariant slots[..] == LabelOf(complete[..i], width)
    {
      assert complete[..i + 1][..i] == complete[..i];
      var check := complete[i];
      slots[check.ordinal as int] := if check.Value() then 1.0 else 0.0;
    }
    assert complete[..|complete|] == complete;
    lab := slots[..];
  }

  /** `make_labeled`: the window's ids, the given clock reading and the label of its resolved checks. */
  method MakeLabeled(proc: HandleEvents, width: nat, timestamp: nat) returns (r: LabelStored)
    requires proc.events != [] && LabelReady(proc.complete, width)
    ensures r.eventId == proc.events[0].eventId && r.timestamp == timestamp
    ensures r.offsetFrom == proc.events[0].offset && r.offsetTo == proc.events[|proc.events| - 1].offset
    ensures r.values == LabelOf(proc.complete, width)
  {
    var ids := proc.Ids();
    var lab := MakeLabel(proc.complete, width);
    r := LabelStored(ids.eventId, timestamp, ids.offsetFrom, ids.offsetTo, lab);
  }

  // ---------------------------------------------------------------------------
  // What a label holds, slot by slot.

  /** A slot no resolved check points at keeps the default zero. */
  lemma {:induction false} LabelOfUntouched(complete: seq<Check>, width: nat, k: nat)
    requires LabelReady(complete, width) && k < width
    requires forall i :: 0 <= i < |complete| ==> complete[i].ordinal as int != k
    ensures LabelOf(complete, width)[k] == 0.0
    decreases |complete|
  {
    if complete != [] {
      LabelOfUntouched(complete[..|complete| - 1], width, k);
    }
  }

  /** The last resolved check at an ordinal decides that slot: 1.0 for a favourable outcome, 0.0 otherwise. */
  lemma {:induction false} LabelOfLastWins(complete: seq<Check>, width: nat, i: nat)
    requires LabelReady(complete, width) && i < |complete|
    requires forall j :: i < j < |complete| ==> complete[j].ordinal != complete[i].ordinal
    ensures LabelOf(complete, width)[complete[i].ordinal as int] == if complete[i].Value() then 1.0 else 0.0
    decreases |complete|
  {
    if i < |complete| - 1 {
      LabelOfLastWins(complete[..|complete| - 1], width, i);
    }
  }

  /** With distinct ordinals every resolved check's outcome is in its slot. */
  lemma LabelOfDistinct(complete: seq<Check>, width: nat)
    requires LabelReady(complete, width)
    requires forall i, j :: 0 <= i < j < |complete| ==> complete[i].ordinal != complete[j].ordinal
    ensures forall i :: 0 <= i < |complete| ==>
      LabelOf(complete, width)[complete[i].ordinal as int] == Score(complete[i])
  {
    forall i | 0 <= i < |complete|
      ensures LabelOf(complete, width)[complete[i].ordinal as int] == Score(complete[i])
    {
      LabelOfLastWins(complete, width, i);
    }
  }

  // ---------------------------------------------------------------------------
  // Where the reader resumes.

  /** The store's `label_max`, reduced to the offset it is read for: the largest stored `offset_from`. */
  function MaxOffsetFrom(stored: seq<LabelStored>): (m: Option<nat>)
    ensures m.None? <==> stored == []
    ensures m.Some? ==> exists i :: 0 <= i < |stored| && stored[i].offsetFrom == m.value
    ensures m.Some? ==> forall i :: 0 <= i < |stored| ==> stored[i].offsetFrom <= m.value
  {
    if stored == [] then None
    else
      var last := stored[|stored| - 1].offsetFrom;
      match MaxOffsetFrom(stored[..|stored| - 1])
      case None => Some(last)
      case Some(m) => Some(if last > m then last else m)
  }

  /**
   The offset `seek_start` moves the reader to: one past the largest stored
   `offset_from`, or one past the oldest offset the stream still holds when no
   label is stored.
   */
  function SeekStart(stored: seq<LabelStored>, oldest: nat): (target: nat)
    ensures stored == [] ==> target == oldest + 1
    ensures stored != [] ==> forall i :: 0 <= i < |stored| ==> stored[i].offsetFrom < target
    ensures stored != [] ==> exists i :: 0 <= i < |stored| && stored[i].offsetFrom == target - 1
  {
    match MaxOffsetFrom(stored)
    case Some(m) => m + 1
    case None => oldest + 1
  }

  /** Storing one more label never moves the resume offset back, and it moves past that label. */
  lemma SeekStartAdvances(stored: seq<LabelStored>, oldest: nat, l: LabelStored)
    requires stored != []
    ensures SeekStart(stored, oldest) <= SeekStart(stored + [l], oldest)
    ensures l.offsetFrom < SeekStart(stored + [l], oldest)
  {
    var t := SeekStart(stored, oldest);
    var i :| 0 <= i < |stored| && stored[i].offsetFrom == t - 1;
    assert (stored + [l])[i] == stored[i];
    assert (stored + [l])[|stored|] == l;
  }
}
