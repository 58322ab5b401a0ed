/**
  The append-only event journal: numbered records whose sequence must run 1, 2, 3, ... without a
  gap. The payload type `E` carries the event type together with the payload.
 */
module EventJournal {
  import opened Foundations

  datatype Record<+E> = Record(sequence: int, timestamp: Timestamp, payload: E)

  datatype JournalError = SequenceNotContiguous(expected: int, actual: int)

  ghost predicate Contiguous<E>(records: seq<Record<E>>) {
    forall i :: 0 <= i < |records| ==> records[i].sequence == i + 1
  }

  ghost function Payloads<E>(records: seq<Record<E>>): (r: seq<E>)
    ensures |r| == |records|
    ensures forall i :: 0 <= i < |r| ==> r[i] == records[i].payload
  {
    seq(|records|, i requires 0 <= i < |records| => records[i].payload)
  }

  /** Succeeds exactly on contiguous records, and otherwise names the first gap. */
  method ValidateSequenceOrder<E>(records: seq<Record<E>>) returns (r: Result<(), JournalError>)
    ensures r.Ok? <==> Contiguous(records)
    ensures r.Err? ==> exists i :: 0 <= i < |records| && Contiguous(records[..i])
                                   && r.error == SequenceNotContiguous(i + 1, records[i].sequence)
                                   && records[i].sequence != i + 1
  {
    for i := 0 to |records|
      invariant Contiguous(records[..i])
    {
      if records[i].sequence != i + 1 {
        return Err(SequenceNotContiguous(i + 1, records[i].sequence));
      }
    }
    assert records[..|records|] == records;
    return Ok(());
  }

  class Journal<E> {
    /** The lines of the journal file. */
    var records: seq<Record<E>>

    constructor ()
      ensures records == []
    {
      records := [];
    }

    ghost predicate Valid()
      reads this
    {
      Contiguous(records)
    }

    ghost function Events(): (r: seq<E>)
      reads this
      ensures |r| == |records|
    {
      Payloads(records)
    }

    method ReadAll() returns (r: Result<seq<Record<E>>, JournalError>)
      ensures r.Ok? <==> Valid()
      ensures r.Ok? ==> r.value == records
    {
      var order := ValidateSequenceOrder(records);
      match order
      case Ok(_) => r := Ok(records);
      case Err(e) => r := Err(e);
    }

    /**
      Appends one record numbered after the last one. A damaged file is reported and left alone; a
      sound one keeps every earlier record, stays contiguous and gains exactly this payload.
     */
    method Append(timestamp: Timestamp, payload: E) returns (r: Result<Record<E>, JournalError>)
      modifies this
      ensures r.Ok? <==> old(Valid())
      ensures r.Err? ==> records == old(records)
      ensures r.Ok? ==> Valid() && records == old(records) + [r.value]
      ensures r.Ok? ==> r.value == Record(|old(records)| + 1, timestamp, payload)
      ensures r.Ok? ==> Events() == old(Events()) + [payload]
    {
      var existing := ReadAll();
      if existing.Err? {
        return Err(existing.error);
      }
      var sequence := if existing.value == [] then 1 else existing.value[|existing.value| - 1].sequence + 1;
      var record := Record(sequence, timestamp, payload);
      records := records + [record];
      return Ok(record);
    }
  }
}
