/** Equal-sized records laid end to end: the bodies of snapshot messages, the frames of a sample block. */
module Records {
  import opened Wrappers

  ghost predicate Sized<B>(records: seq<seq<B>>, size: nat) {
    forall i :: 0 <= i < |records| ==> |records[i]| == size
  }

  function Joined<B>(records: seq<seq<B>>): seq<B> {
    if records == [] then [] else Joined(records[..|records| - 1]) + records[|records| - 1]
  }

  lemma {:induction false} Offsets(size: nat, index: nat, count: nat)
    requires index < count
    ensures 0 <= size * index
    ensures size * (index + 1) == size * index + size <= size * count
  {
    if index + 1 < count {
      Offsets(size, index, count - 1);
      assert size * count == size * (count - 1) + size;
    }
  }

  lemma {:induction false} JoinedLength<B>(records: seq<seq<B>>, size: nat)
    requires Sized(records, size)
    ensures |Joined(records)| == size * |records|
  {
    if records != [] {
      var last := |records| - 1;
      JoinedLength(records[..last], size);
      Offsets(size, last, |records|);
    }
  }

  lemma JoinedOneMore<B>(before: seq<B>, records: seq<seq<B>>, record: seq<B>)
    ensures before + Joined(records + [record]) == before + Joined(records) + record
  {
    assert (records + [record])[..|records|] == records;
  }

  function RecordAt<B>(body: seq<B>, size: nat, index: nat, count: nat): (record: seq<B>)
    requires |body| == size * count && index < count
    ensures |record| == size
  {
    Offsets(size, index, count);
    body[size * index..size * index + size]
  }

  lemma {:induction false} JoinedRecordAt<B>(records: seq<seq<B>>, size: nat, index: nat)
    requires Sized(records, size) && index < |records|
    ensures |Joined(records)| == size * |records|
    ensures RecordAt(Joined(records), size, index, |records|) == records[index]
  {
    JoinedLength(records, size);
    var last := |records| - 1;
    var before := records[..last];
    JoinedLength(before, size);
    Offsets(size, index, |records|);
    if index < last {
      JoinedRecordAt(before, size, index);
      Offsets(size, index, last);
    }
  }

  /** Dropping the last record leaves the earlier ones where they were. */
  lemma HeadRecords<B>(body: seq<B>, size: nat, count: nat, i: nat)
    requires |body| == size * (count + 1) && i < count
    ensures size * count <= |body| && |body[..size * count]| == size * count
    ensures RecordAt(body[..size * count], size, i, count) == RecordAt(body, size, i, count + 1)
  {
    Offsets(size, count, count + 1);
    Offsets(size, i, count);
  }

  lemma LastRecord<B>(body: seq<B>, size: nat, count: nat)
    requires |body| == size * (count + 1)
    ensures size * count <= |body|
    ensures body == body[..size * count] + RecordAt(body, size, count, count + 1)
  {
    Offsets(size, count, count + 1);
  }

  /** A body is the join of its own records. */
  lemma {:induction false} JoinedFromRecords<B>(body: seq<B>, size: nat, records: seq<seq<B>>)
    requires |body| == size * |records|
    requires forall i :: 0 <= i < |records| ==> RecordAt(body, size, i, |records|) == records[i]
    ensures Joined(records) == body
  {
    if records == [] {
      assert |body| == 0;
    } else {
      var last := |records| - 1;
      LastRecord(body, size, last);
      forall i | 0 <= i < last ensures RecordAt(body[..size * last], size, i, last) == records[..last][i] {
        HeadRecords(body, size, last, i);
      }
      JoinedFromRecords(body[..size * last], size, records[..last]);
    }
  }

  /** The first `index` of `count` records, when `parse` accepts every one of them. */
  function ParseAll<B, T>(body: seq<B>, size: nat, index: nat, count: nat, parse: seq<B> -> Option<T>)
    : (r: Option<seq<T>>)
    requires |body| == size * count && index <= count
    ensures r.Some? ==> |r.value| == index
    decreases index
  {
    if index == 0 then Some([])
    else
      match ParseAll(body, size, index - 1, count, parse)
      case None => None
      case Some(items) =>
        match parse(RecordAt(body, size, index - 1, count))
        case None => None
        case Some(item) => Some(items + [item])
  }

  lemma {:induction false} RefusalStays<B, T>(body: seq<B>, size: nat, index: nat, count: nat,
                                           parse: seq<B> -> Option<T>)
    requires |body| == size * count && index <= count
    requires ParseAll(body, size, index, count, parse).None?
    ensures ParseAll(body, size, count, count, parse).None?
    decreases count - index
  {
    if index < count {
      RefusalStays(body, size, index + 1, count, parse);
    }
  }

  lemma {:induction false} ParsedItemAt<B, T>(body: seq<B>, size: nat, index: nat, count: nat,
                                           parse: seq<B> -> Option<T>, i: nat)
    requires |body| == size * count && i < index <= count
    requires ParseAll(body, size, index, count, parse).Some?
    ensures parse(RecordAt(body, size, i, count)) == Some(ParseAll(body, size, index, count, parse).value[i])
    decreases index
  {
    if i < index - 1 {
      ParsedItemAt(body, size, index - 1, count, parse, i);
    }
  }

  lemma {:induction false} ParseAllExtends<B, T>(body: seq<B>, size: nat, index: nat, count: nat,
                                              parse: seq<B> -> Option<T>)
    requires |body| == size * count && index <= count
    requires ParseAll(body, size, count, count, parse).Some?
    ensures ParseAll(body, size, index, count, parse).Some?
    ensures ParseAll(body, size, index, count, parse).value <= ParseAll(body, size, count, count, parse).value
    decreases count - index
  {
    if index < count {
      ParseAllExtends(body, size, index + 1, count, parse);
    }
  }

  /** Records that `encode` wrote and `parse` inverts are parsed back in order. */
  lemma {:induction false} ParsesJoined<B, T>(items: seq<T>, index: nat, size: nat,
                                           encode: seq<seq<B>>, parse: seq<B> -> Option<T>)
    requires |encode| == |items| && Sized(encode, size) && index <= |items|
    requires forall i :: 0 <= i < |items| ==> parse(encode[i]) == Some(items[i])
    ensures |Joined(encode)| == size * |items|
    ensures ParseAll(Joined(encode), size, index, |items|, parse) == Some(items[..index])
    decreases index
  {
    JoinedLength(encode, size);
    if index > 0 {
      ParsesJoined(items, index - 1, size, encode, parse);
      JoinedRecordAt(encode, size, index - 1);
      assert items[..index] == items[..index - 1] + [items[index - 1]];
    }
  }
}
