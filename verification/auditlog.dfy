/** The content-building part of `write_real_data_to_s3`: the enriched record, its CSV header and
    row, and the new text of the day's log given the text stored before (if any). */
module AuditLog {
  import opened Wrappers
  import opened Errors
  import opened Values
  import opened Records
  import opened Text

  const PredictionField: string := "credit_score_prediction"
  const TimestampField: string := "timestamp"
  const VersionField: string := "model_version"

  /** `{**data, "credit_score_prediction": …, "timestamp": …, "model_version": …}`: the payload
      with the three audit fields assigned in that order. */
  function Enrich(data: Record, prediction: real, timestamp: string, version: string): (e: Record)
    ensures Lookup(e, PredictionField) == Some(Flt(prediction))
    ensures Lookup(e, TimestampField) == Some(Str(timestamp))
    ensures Lookup(e, VersionField) == Some(Str(version))
    ensures forall k :: k != PredictionField && k != TimestampField && k != VersionField ==>
              Lookup(e, k) == Lookup(data, k)
  {
    var withPrediction := Put(data, PredictionField, Flt(prediction));
    var withTimestamp := Put(withPrediction, TimestampField, Str(timestamp));
    AuditFieldsDistinct();
    PutLookup(data, PredictionField, Flt(prediction));
    PutLookup(withPrediction, TimestampField, Str(timestamp));
    PutLookup(withTimestamp, VersionField, Str(version));
    Put(withTimestamp, VersionField, Str(version))
  }

  /** The three audit field names differ. */
  lemma AuditFieldsDistinct()
    ensures PredictionField != TimestampField && PredictionField != VersionField && TimestampField != VersionField
  {
    assert PredictionField[0] == 'c' && TimestampField[0] == 't' && VersionField[0] == 'm';
  }

  /** Appending three singletons one after another is appending the three-element sequence. */
  lemma AppendThree<T>(s: seq<T>, a: T, b: T, c: T)
    ensures s + [a] + [b] + [c] == s + [a, b, c]
  {
    assert [a] + [b] + [c] == [a, b, c];
  }

  /** A prefix of a prefix is a prefix. */
  lemma PrefixOfPrefix<T>(a: seq<T>, b: seq<T>, c: seq<T>)
    requires |c| <= |b| <= |a|
    requires a[..|b|] == b && b[..|c|] == c
    ensures a[..|c|] == c
  {
    assert a[..|c|] == a[..|b|][..|c|];
  }

  /** Three assignments keep the original keys in front, in order. */
  lemma AssignThreeKeepsPrefix(r: Record, k1: string, v1: Value, k2: string, v2: Value, k3: string, v3: Value)
    ensures var e := Put(Put(Put(r, k1, v1), k2, v2), k3, v3);
            |r| <= |e| && Keys(e)[..|r|] == Keys(r)
  {
    var r1 := Put(r, k1, v1);
    var r2 := Put(r1, k2, v2);
    var e := Put(r2, k3, v3);
    PutExtendsKeys(r, k1, v1);
    PutExtendsKeys(r1, k2, v2);
    PutExtendsKeys(r2, k3, v3);
    PrefixOfPrefix(Keys(r2), Keys(r1), Keys(r));
    PrefixOfPrefix(Keys(e), Keys(r2), Keys(r));
  }

  /** Three assignments of distinct keys that were all absent append them in assignment order. */
  lemma AssignThreeNewKeys(r: Record, k1: string, v1: Value, k2: string, v2: Value, k3: string, v3: Value)
    requires k1 != k2 && k1 != k3 && k2 != k3
    requires k1 !in Keys(r) && k2 !in Keys(r) && k3 !in Keys(r)
    ensures Keys(Put(Put(Put(r, k1, v1), k2, v2), k3, v3)) == Keys(r) + [k1, k2, k3]
  {
    var r1 := Put(r, k1, v1);
    var r2 := Put(r1, k2, v2);
    var s0, s1 := Keys(r), Keys(r1);
    assert s1 == s0 + [k1];
    assert k2 !in s1;
    assert k3 !in Keys(r2);
    AppendThree(s0, k1, k2, k3);
  }

  /** The enriched record lists the payload's keys first, in their order, then whichever audit
      fields the payload lacked; a payload without audit fields gets all three appended. */
  lemma EnrichKeyOrder(data: Record, prediction: real, timestamp: string, version: string)
    ensures var e := Enrich(data, prediction, timestamp, version);
            |data| <= |e| && Keys(e)[..|data|] == Keys(data)
    ensures PredictionField !in Keys(data) && TimestampField !in Keys(data) && VersionField !in Keys(data) ==>
              Keys(Enrich(data, prediction, timestamp, version)) == Keys(data) + [PredictionField, TimestampField, VersionField]
  {
    AssignThreeKeepsPrefix(data, PredictionField, Flt(prediction), TimestampField, Str(timestamp), VersionField, Str(version));
    if PredictionField !in Keys(data) && TimestampField !in Keys(data) && VersionField !in Keys(data) {
      AuditFieldsDistinct();
      AssignThreeNewKeys(data, PredictionField, Flt(prediction), TimestampField, Str(timestamp), VersionField, Str(version));
    }
  }

  /** The enriched record of a dict is itself a dict: no key appears twice, and a payload key
      named like an audit field keeps its place and takes the audit value. */
  lemma EnrichInPlace(data: Record, prediction: real, timestamp: string, version: string)
    requires DistinctKeys(data)
    ensures DistinctKeys(Enrich(data, prediction, timestamp, version))
    ensures forall i :: 0 <= i < |data| ==>
              Enrich(data, prediction, timestamp, version)[i] ==
                if data[i].0 == PredictionField then (PredictionField, Flt(prediction))
                else if data[i].0 == TimestampField then (TimestampField, Str(timestamp))
                else if data[i].0 == VersionField then (VersionField, Str(version))
                else data[i]
  {
    var withPrediction := Put(data, PredictionField, Flt(prediction));
    var withTimestamp := Put(withPrediction, TimestampField, Str(timestamp));
    PutInPlace(data, PredictionField, Flt(prediction));
    PutInPlace(withPrediction, TimestampField, Str(timestamp));
    PutInPlace(withTimestamp, VersionField, Str(version));
  }

  /** The enriched record holds at least the three audit fields. */
  lemma EnrichHasAuditFields(data: Record, prediction: real, timestamp: string, version: string)
    ensures |Enrich(data, prediction, timestamp, version)| >= 3
  {
    AuditFieldsDistinct();
    ThreeKeysNeedThreeEntries(Enrich(data, prediction, timestamp, version), PredictionField, TimestampField, VersionField);
  }

  /** A record holding three distinct keys has at least three entries. */
  lemma ThreeKeysNeedThreeEntries(r: Record, k1: string, k2: string, k3: string)
    requires k1 != k2 && k1 != k3 && k2 != k3
    requires k1 in Keys(r) && k2 in Keys(r) && k3 in Keys(r)
    ensures |r| >= 3
  {
    var ks := Keys(r);
    var i :| 0 <= i < |ks| && ks[i] == k1;
    var j :| 0 <= j < |ks| && ks[j] == k2;
    var l :| 0 <= l < |ks| && ks[l] == k3;
  }

  /** `",".join(enriched.keys())`: the CSV header. */
  function Header(record: Record): string {
    Join(Keys(record), ',')
  }

  /** `map(str, enriched.values())`, with `str` taken as the given rendering `show`. */
  function Rendered(show: Value -> string, record: Record): (fields: seq<string>)
    ensures |fields| == |record|
    ensures forall i :: 0 <= i < |record| ==> fields[i] == show(record[i].1)
  {
    seq(|record|, i requires 0 <= i < |record| => show(record[i].1))
  }

  /** `",".join(map(str, enriched.values()))`: the CSV row. */
  function Row(show: Value -> string, record: Record): string {
    Join(Rendered(show, record), ',')
  }

  /** No key and no rendered value contains `c`. */
  predicate Avoids(show: Value -> string, record: Record, c: char) {
    forall i :: 0 <= i < |record| ==> c !in record[i].0 && c !in show(record[i].1)
  }

  /** Joining pieces that avoid `c` with a different separator gives text that avoids `c`. */
  lemma {:induction false} JoinAvoids(parts: seq<string>, sep: char, c: char)
    requires sep != c
    requires forall i :: 0 <= i < |parts| ==> c !in parts[i]
    ensures c !in Join(parts, sep)
    decreases |parts|
  {
    if |parts| > 1 {
      JoinAvoids(parts[1..], sep, c);
      assert Join(parts, sep) == parts[0] + [sep] + Join(parts[1..], sep);
    }
  }

  /** When no key or rendered value contains a comma, the header and the row split back into
      the record's keys and rendered values: one column per entry, the i-th header field naming
      the i-th row field. */
  lemma HeaderRowAligned(show: Value -> string, record: Record)
    requires |record| >= 1
    requires Avoids(show, record, ',')
    ensures Split(Header(record), ',') == Keys(record)
    ensures Split(Row(show, record), ',') == Rendered(show, record)
    ensures |Split(Header(record), ',')| == |Split(Row(show, record), ',')| == |record|
  {
    SplitJoin(Keys(record), ',');
    SplitJoin(Rendered(show, record), ',');
  }

  /** A record with no line break in any key or rendered value, and at least two entries, gives
      a header and a non-empty row that are single lines. */
  lemma HeaderRowAreLines(show: Value -> string, record: Record)
    requires |record| >= 2
    requires Avoids(show, record, '\n')
    ensures '\n' !in Header(record) && '\n' !in Row(show, record)
    ensures Row(show, record) != ""
  {
    JoinAvoids(Keys(record), ',', '\n');
    JoinAvoids(Rendered(show, record), ',', '\n');
  }

  /** The lines of the new log: a synthesized header and the row when there was no log; the
      stored header, the stored rows and the new row when there was one; an error when the
      stored log has no line. */
  function NewLines(existing: Option<seq<string>>, show: Value -> string, record: Record): (r: Result<seq<string>, Error>)
    ensures r.Failure? <==> existing == Some([])
    ensures r.Failure? ==> r.error == EmptyLog
    ensures existing.None? ==> r == Success([Header(record), Row(show, record)])
    ensures existing.Some? && r.Success? ==>
              && |r.value| == |existing.value| + 1
              && r.value[0] == existing.value[0]
              && r.value[1..] == existing.value[1..] + [Row(show, record)]
  {
    match existing
    case None => Success([Header(record), Row(show, record)])
    case Some(lines) =>
      if |lines| == 0 then Failure(EmptyLog)
      else
        var header, rows := lines[0], lines[1..];
        Success([header] + (rows + [Row(show, record)]))
  }

  /** The text written back for the day: the previous text (`None` when the object does not
      exist) is read as lines, extended, and joined with "\n". */
  function WriteContent(existing: Option<string>, show: Value -> string, record: Record): (r: Result<string, Error>)
    ensures r.Failure? <==> existing == Some("")
    ensures r.Failure? ==> r.error == EmptyLog
  {
    var read := match existing
      case None => None
      case Some(text) => Some(SplitLines(text));
    var lines :- NewLines(read, show, record);
    Success(Join(lines, '\n'))
  }

  /** First write of the day: the log read back is exactly the header and one row. */
  lemma FirstWrite(show: Value -> string, record: Record)
    requires |record| >= 2
    requires Avoids(show, record, '\n')
    ensures WriteContent(None, show, record).Success?
    ensures SplitLines(WriteContent(None, show, record).value) == [Header(record), Row(show, record)]
    ensures Split(WriteContent(None, show, record).value, '\n') == [Header(record), Row(show, record)]
  {
    HeaderRowAreLines(show, record);
    SplitLinesJoin([Header(record), Row(show, record)]);
    SplitJoin([Header(record), Row(show, record)], '\n');
  }

  /** Later write of the day: the log read back is the stored header, the N stored rows
      unchanged and in order, and the new row last: N + 1 rows. */
  lemma AppendWrite(show: Value -> string, record: Record, text: string)
    requires text != ""
    requires |record| >= 2
    requires Avoids(show, record, '\n')
    ensures WriteContent(Some(text), show, record).Success?
    ensures SplitLines(WriteContent(Some(text), show, record).value) == SplitLines(text) + [Row(show, record)]
    ensures Split(WriteContent(Some(text), show, record).value, '\n') == SplitLines(text) + [Row(show, record)]
  {
    var stored := SplitLines(text);
    var lines := NewLines(Some(stored), show, record).value;
    HeaderRowAreLines(show, record);
    assert lines == stored + [Row(show, record)] by {
      assert [stored[0]] + stored[1..] == stored;
    }
    SplitLinesJoin(lines);
    SplitJoin(lines, '\n');
  }

  /** Two writes in sequence on the same day keep both rows under the first writer's header. */
  lemma SequentialWritesKeepBoth(show: Value -> string, first: Record, second: Record)
    requires |first| >= 2 && |second| >= 2
    requires Avoids(show, first, '\n') && Avoids(show, second, '\n')
    ensures WriteContent(None, show, first).Success?
    ensures WriteContent(Some(WriteContent(None, show, first).value), show, second).Success?
    ensures SplitLines(WriteContent(Some(WriteContent(None, show, first).value), show, second).value)
            == [Header(first), Row(show, first), Row(show, second)]
  {
    FirstWrite(show, first);
    var text := WriteContent(None, show, first).value;
    AppendWrite(show, second, text);
  }
}
