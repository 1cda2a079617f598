/** The hash chain: verification accepts exactly what the logger writes, and a last hash names its chain. */
module AuditChain {
  import opened Wrappers
  import opened Audit

  function LastHash(records: seq<PersistedRecord>, previous: Hash): Hash {
    if records == [] then previous else records[|records| - 1].hash
  }

  /** The records that calling `serializeRecord` again and again produces, from a hash on. */
  function Produced(key: nat, inputs: seq<(AuditRecord, int)>, previous: Hash): (records: seq<PersistedRecord>)
    ensures |records| == |inputs|
  {
    if inputs == [] then []
    else
      var last := |inputs| - 1;
      var before := Produced(key, inputs[..last], previous);
      before + [Serialize(key, inputs[last].0, inputs[last].1, LastHash(before, previous))]
  }

  function Inputs(records: seq<PersistedRecord>): seq<(AuditRecord, int)> {
    seq(|records|, i requires 0 <= i < |records| => (records[i].record, records[i].timestamp))
  }

  predicate AllStored(lines: seq<Line>) {
    forall i | 0 <= i < |lines| :: lines[i].Stored?
  }

  function Entries(lines: seq<Line>): seq<PersistedRecord>
    requires AllStored(lines)
  {
    seq(|lines|, i requires 0 <= i < |lines| => lines[i].entry)
  }

  /** What the record loop makes of one more line, given what it made of the lines before. */
  lemma {:induction false} VerifySnoc(key: nat, lines: seq<Line>, line: Line, expected: Hash)
    ensures var before, after := VerifyLines(key, lines, expected), VerifyLines(key, lines + [line], expected);
            if before.Err? then after == before
            else if !line.Stored? then after == Err(MalformedRecord)
            else if line.entry.previousHash != LastHash(before.value, expected) then after == Err(BrokenChain)
            else if line.entry != Serialize(key, line.entry.record, line.entry.timestamp, line.entry.previousHash)
              then after == Err(RecordMacMismatch)
            else after == Ok(before.value + [line.entry])
  {
    if lines == [] {
      assert lines + [line] == [line] && [line][1..] == [];
      if line.Stored? {
        assert VerifyLines(key, [line][1..], line.entry.hash) == Ok([]);
        assert [line.entry] + [] == [] + [line.entry];
      }
    } else {
      assert (lines + [line])[1..] == lines[1..] + [line];
      if lines[0].Stored? {
        var entry := lines[0].entry;
        var rest := VerifyLines(key, lines[1..], entry.hash);
        VerifySnoc(key, lines[1..], line, entry.hash);
        if rest.Ok? {
          assert line.Stored? ==> [entry] + (rest.value + [line.entry]) == ([entry] + rest.value) + [line.entry];
          assert LastHash([entry] + rest.value, expected) == LastHash(rest.value, entry.hash);
        }
      }
    }
  }

  /** The record loop accepts a file exactly when its records are what the logger would have written. */
  lemma {:induction false} AcceptsExactlyProduced(key: nat, lines: seq<Line>, expected: Hash)
    ensures VerifyLines(key, lines, expected).Ok? <==>
              AllStored(lines) && Entries(lines) == Produced(key, Inputs(Entries(lines)), expected)
    ensures VerifyLines(key, lines, expected).Ok? ==> AllStored(lines) && VerifyLines(key, lines, expected).value == Entries(lines)
  {
    if lines != [] {
      var last := |lines| - 1;
      AcceptsExactlyProduced(key, lines[..last], expected);
      VerifySnoc(key, lines[..last], lines[last], expected);
      assert lines[..last] + [lines[last]] == lines;
      assert AllStored(lines) <==> AllStored(lines[..last]) && lines[last].Stored?;
      if AllStored(lines) {
        var before := Entries(lines[..last]);
        assert Entries(lines) == before + [lines[last].entry];
        assert Inputs(Entries(lines))[..last] == Inputs(before);
        var made := Produced(key, Inputs(Entries(lines)), expected);
        assert made[..last] == Produced(key, Inputs(before), expected);
        assert Entries(lines)[..last] == before;
      }
    }
  }

  /** Every produced sequence is accepted, whatever white space its lines carry. */
  lemma ProducedIsAccepted(key: nat, inputs: seq<(AuditRecord, int)>, lines: seq<Line>)
    requires AllStored(lines) && Entries(lines) == Produced(key, inputs, Initial)
    ensures VerifyLines(key, lines, Initial) == Ok(Produced(key, inputs, Initial))
  {
    InputsProduced(key, inputs, Initial);
    AcceptsExactlyProduced(key, lines, Initial);
  }

  lemma {:induction false} InputsProduced(key: nat, inputs: seq<(AuditRecord, int)>, previous: Hash)
    ensures Inputs(Produced(key, inputs, previous)) == inputs
  {
    if inputs != [] {
      var last := |inputs| - 1;
      InputsProduced(key, inputs[..last], previous);
      assert inputs == inputs[..last] + [inputs[last]];
    }
  }

  /** Two produced sequences of equal length that end in the same hash are the same sequence. */
  lemma {:induction false} ProducedUnique(key: nat, a: seq<(AuditRecord, int)>, b: seq<(AuditRecord, int)>, previous: Hash)
    requires |a| == |b|
    requires LastHash(Produced(key, a, previous), previous) == LastHash(Produced(key, b, previous), previous)
    ensures a == b
  {
    if a != [] {
      var last := |a| - 1;
      ProducedUnique(key, a[..last], b[..last], previous);
      assert a == a[..last] + [a[last]] && b == b[..last] + [b[last]];
    }
  }

  /** Chain uniqueness: two accepted segments with equal record count and last hash hold the same records. */
  lemma ChainUnique(key: nat, a: File, b: File)
    requires VerifySegment(key, a).Ok? && VerifySegment(key, b).Ok?
    requires |VerifySegment(key, a).value| == |VerifySegment(key, b).value|
    requires LastHash(VerifySegment(key, a).value, Initial) == LastHash(VerifySegment(key, b).value, Initial)
    ensures VerifySegment(key, a) == VerifySegment(key, b)
  {
    AcceptsExactlyProduced(key, a.lines, Initial);
    AcceptsExactlyProduced(key, b.lines, Initial);
    ProducedUnique(key, Inputs(Entries(a.lines)), Inputs(Entries(b.lines)), Initial);
  }
}
