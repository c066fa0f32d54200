/**
 * The ID hints `run_query` gathers from the rows it finds (orchestrator lines 139, 145 and
 * 159-165): for each record and each of seven ID column names, a truthy value overwrites the
 * hint of that name.
 */
module Hints {
  import opened Wrappers
  import PyDict
  import opened Json

  /** Line 163, in its order. */
  const IdKeys: seq<string> := ["UserID", "OrderID", "ShipmentID", "ProductID", "TicketID", "WalletID", "TransactionID"]

  const NoIdsYet: string := "No IDs found yet."

  type Hints = PyDict.Dict<Json>

  /** `key in record and record[key]` (line 164), for a record that is a dict. */
  predicate Carries(record: Json, key: string) {
    record.JObj? && PyDict.Get(record.fields, key).Some? && Truthy(PyDict.Get(record.fields, key).value)
  }

  /**
   * The hints after the inner loop of lines 163-165 has visited the first `n` names of `keys`;
   * the loop itself runs over `IdKeys`.
   */
  function RecordHints(hints: Hints, record: Json, keys: seq<string>, n: nat): Hints
    requires n <= |keys|
  {
    if n == 0 then hints
    else
      var h := RecordHints(hints, record, keys, n - 1);
      var key := keys[n - 1];
      if Carries(record, key) then PyDict.Put(h, key, PyDict.Get(record.fields, key).value) else h
  }

  /** The hints after the loop of lines 162-165 has visited every record. */
  function HintsAfter(hints: Hints, records: seq<Json>): Hints {
    if |records| == 0 then hints
    else RecordHints(HintsAfter(hints, records[..|records| - 1]), records[|records| - 1], IdKeys, |IdKeys|)
  }

  /** Lines 162-165. */
  method UpdateHints(hints: Hints, records: seq<Json>) returns (h: Hints)
    ensures h == HintsAfter(hints, records)
  {
    h := hints;
    var i := 0;
    while i < |records|
      invariant 0 <= i <= |records|
      invariant h == HintsAfter(hints, records[..i])
    {
      assert records[..i + 1][..i] == records[..i];
      h := GatherIds(h, records[i], IdKeys);
      i := i + 1;
    }
    assert records[..i] == records;
  }

  /** Lines 163-165 for one record, over the names `keys`. */
  method GatherIds(hints: Hints, record: Json, keys: seq<string>) returns (h: Hints)
    ensures h == RecordHints(hints, record, keys, |keys|)
  {
    h := hints;
    var j := 0;
    while j < |keys|
      invariant 0 <= j <= |keys|
      invariant h == RecordHints(hints, record, keys, j)
    {
      h := GatherId(h, record, keys[j]);
      j := j + 1;
    }
  }

  /** Line 164-165 for one record and one ID name. */
  method GatherId(hints: Hints, record: Json, key: string) returns (h: Hints)
    ensures h == if Carries(record, key) then PyDict.Put(hints, key, PyDict.Get(record.fields, key).value) else hints
  {
    h := hints;
    if record.JObj? {
      var found := PyDict.Get(record.fields, key);
      if found.Some? && Truthy(found.value) {
        h := PyDict.Put(h, key, found.value);
      }
    }
  }

  /** Line 145: the hint text given to the SQL writer. `dumps` is `json.dumps`. */
  function ContextSummary(hints: Hints, dumps: Json -> string): string {
    if |hints| == 0 then NoIdsYet else dumps(JObj(hints))
  }

  /** `json.dumps` writes every non-empty dict starting with a brace. */
  ghost predicate RendersObjectsInBraces(dumps: Json -> string) {
    forall fields: PyDict.Dict<Json> :: |fields| > 0 ==> |dumps(JObj(fields))| > 0 && dumps(JObj(fields))[0] == '{'
  }

  /** The SQL writer is told "No IDs found yet." exactly when no hint has been gathered. */
  lemma SummarySaysNoIdsExactlyWhenEmpty(hints: Hints, dumps: Json -> string)
    requires RendersObjectsInBraces(dumps)
    ensures ContextSummary(hints, dumps) == NoIdsYet <==> |hints| == 0
    ensures |hints| > 0 ==> ContextSummary(hints, dumps) == dumps(JObj(hints))
  {
    if |hints| > 0 {
      assert dumps(JObj(hints))[0] == '{';
      assert NoIdsYet[0] == 'N';
    }
  }

  lemma {:induction false} RecordHintsGet(hints: Hints, record: Json, keys: seq<string>, n: nat, key: string)
    requires n <= |keys|
    ensures PyDict.Get(RecordHints(hints, record, keys, n), key) ==
      if key in keys[..n] && Carries(record, key) then PyDict.Get(record.fields, key)
      else PyDict.Get(hints, key)
  {
    if n > 0 {
      RecordHintsGet(hints, record, keys, n - 1, key);
      assert keys[..n] == keys[..n - 1] + [keys[n - 1]];
    }
  }

  /** One record sets exactly the ID names it carries and leaves every other hint alone. */
  lemma OneRecord(hints: Hints, record: Json, key: string)
    ensures PyDict.Get(HintsAfter(hints, [record]), key) ==
      if key in IdKeys && Carries(record, key) then PyDict.Get(record.fields, key)
      else PyDict.Get(hints, key)
  {
    assert [record][..0] == [];
    RecordHintsGet(hints, record, IdKeys, |IdKeys|, key);
    assert IdKeys[..|IdKeys|] == IdKeys;
  }

  /** `records[i]` is the last record that carries `key`. */
  predicate LastCarrier(records: seq<Json>, key: string, i: int) {
    0 <= i < |records| && Carries(records[i], key)
    && forall j :: i < j < |records| ==> !Carries(records[j], key)
  }

  /** The hints after one more record, for one name. */
  lemma LastRecordStep(hints: Hints, records: seq<Json>, key: string)
    requires |records| > 0
    ensures var last := records[|records| - 1];
      PyDict.Get(HintsAfter(hints, records), key) ==
        if key in IdKeys && Carries(last, key) then PyDict.Get(last.fields, key)
        else PyDict.Get(HintsAfter(hints, records[..|records| - 1]), key)
  {
    RecordHintsGet(HintsAfter(hints, records[..|records| - 1]), records[|records| - 1], IdKeys, |IdKeys|, key);
    assert IdKeys[..|IdKeys|] == IdKeys;
  }

  /** A name that is not an ID name, or that no record carries, keeps its earlier hint. */
  lemma {:induction false} UncarriedKeepsHint(hints: Hints, records: seq<Json>, key: string)
    requires key !in IdKeys || forall i :: 0 <= i < |records| ==> !Carries(records[i], key)
    ensures PyDict.Get(HintsAfter(hints, records), key) == PyDict.Get(hints, key)
  {
    if |records| > 0 {
      LastRecordStep(hints, records, key);
      UncarriedKeepsHint(hints, records[..|records| - 1], key);
    }
  }

  /** Last write wins: an ID name holds the value of the last record that carries it. */
  lemma {:induction false} LastWriteWins(hints: Hints, records: seq<Json>, key: string, i: nat)
    requires key in IdKeys && LastCarrier(records, key, i)
    ensures PyDict.Get(HintsAfter(hints, records), key) == PyDict.Get(records[i].fields, key)
  {
    LastRecordStep(hints, records, key);
    if i < |records| - 1 {
      var front := records[..|records| - 1];
      assert LastCarrier(front, key, i);
      LastWriteWins(hints, front, key, i);
    }
  }

  /** Visiting `a` and then `b` is visiting `a + b`: the hints carry over between stores. */
  lemma {:induction false} HintsAfterAppend(hints: Hints, a: seq<Json>, b: seq<Json>)
    ensures HintsAfter(hints, a + b) == HintsAfter(HintsAfter(hints, a), b)
  {
    if |b| == 0 {
      assert a + b == a;
    } else {
      var front := b[..|b| - 1];
      assert (a + b)[..|a + b| - 1] == a + front;
      assert (a + b)[|a + b| - 1] == b[|b| - 1];
      HintsAfterAppend(hints, a, front);
    }
  }

  /** Hints that are names of `keys` with truthy values, each named once. */
  ghost predicate WellFormedOver(hints: Hints, keys: seq<string>) {
    PyDict.UniqueKeys(hints) && forall i :: 0 <= i < |hints| ==> hints[i].0 in keys && Truthy(hints[i].1)
  }

  /** Hints that are ID names with truthy values, each named once. */
  ghost predicate WellFormed(hints: Hints) {
    WellFormedOver(hints, IdKeys)
  }

  lemma {:induction false} RecordHintsWellFormed(hints: Hints, record: Json, keys: seq<string>, n: nat)
    requires n <= |keys|
    requires WellFormedOver(hints, keys)
    ensures WellFormedOver(RecordHints(hints, record, keys, n), keys)
  {
    if n > 0 {
      RecordHintsWellFormed(hints, record, keys, n - 1);
      var h := RecordHints(hints, record, keys, n - 1);
      var key := keys[n - 1];
      if Carries(record, key) {
        var v := PyDict.Get(record.fields, key).value;
        PyDict.PutUnique(h, key, v);
        var ok := (e: (string, Json)) => e.0 in keys && Truthy(e.1);
        assert ok((key, v)) by {
          assert keys[n - 1] in keys;
        }
        assert forall i :: 0 <= i < |h| ==> ok(h[i]);
        PyDict.PutPreserves(h, key, v, ok);
      }
    }
  }

  /** Gathering keeps only ID names with truthy values, each once. */
  lemma {:induction false} HintsAfterWellFormed(hints: Hints, records: seq<Json>)
    requires WellFormed(hints)
    ensures WellFormed(HintsAfter(hints, records))
  {
    if |records| > 0 {
      HintsAfterWellFormed(hints, records[..|records| - 1]);
      RecordHintsWellFormed(HintsAfter(hints, records[..|records| - 1]), records[|records| - 1], IdKeys, |IdKeys|);
    }
  }

  /** Records that carry no ID name leave the hints as they were. */
  lemma {:induction false} NoCarrierNoChange(hints: Hints, records: seq<Json>)
    requires forall i, key :: 0 <= i < |records| && key in IdKeys ==> !Carries(records[i], key)
    ensures HintsAfter(hints, records) == hints
  {
    if |records| > 0 {
      NoCarrierNoChange(hints, records[..|records| - 1]);
      RecordUnchanged(hints, records[|records| - 1], IdKeys, |IdKeys|);
    }
  }

  lemma {:induction false} RecordUnchanged(hints: Hints, record: Json, keys: seq<string>, n: nat)
    requires n <= |keys|
    requires forall key :: key in keys ==> !Carries(record, key)
    ensures RecordHints(hints, record, keys, n) == hints
  {
    if n > 0 {
      RecordUnchanged(hints, record, keys, n - 1);
      assert keys[n - 1] in keys;
    }
  }
}
