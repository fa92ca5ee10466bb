/**
 * The two ways `convertTemplate` writes a batch of named files into an
 * output directory, with the directory modelled as a map from names to
 * contents and the batch as a sequence of (name, content) entries in
 * processing order.
 */
module Merge {
  import opened Options

  /** The names a batch writes. */
  function Keys<K, V>(entries: seq<(K, V)>): (ks: set<K>)
    ensures forall i :: 0 <= i < |entries| ==> entries[i].0 in ks
  {
    set i | 0 <= i < |entries| :: entries[i].0
  }

  /** No later entry of the batch has the same name as entry `i`. */
  ghost predicate LastWithKey<K, V>(entries: seq<(K, V)>, i: nat)
    requires i < |entries|
  {
    forall j :: i < j < |entries| ==> entries[j].0 != entries[i].0
  }

  /** No earlier entry of the batch has the same name as entry `i`. */
  ghost predicate FirstWithKey<K, V>(entries: seq<(K, V)>, i: nat)
    requires i < |entries|
  {
    forall j :: 0 <= j < i ==> entries[j].0 != entries[i].0
  }

  /** In `r`, every name of the batch holds the content of its last entry. */
  ghost predicate LastEntriesWin<K, V>(entries: seq<(K, V)>, r: map<K, V>) {
    forall i :: 0 <= i < |entries| && LastWithKey(entries, i) ==> entries[i].0 in r && r[entries[i].0] == entries[i].1
  }

  /** In `r`, every name of the batch that `dir` lacked holds the content of its first entry. */
  ghost predicate FirstEntriesFill<K, V>(dir: map<K, V>, entries: seq<(K, V)>, r: map<K, V>) {
    forall i :: 0 <= i < |entries| && FirstWithKey(entries, i) && entries[i].0 !in dir
      ==> entries[i].0 in r && r[entries[i].0] == entries[i].1
  }

  /** Every name of `dir` outside `names` keeps its content in `r`. */
  ghost predicate Untouched<K, V>(dir: map<K, V>, names: set<K>, r: map<K, V>) {
    forall k :: k in dir && k !in names ==> k in r && r[k] == dir[k]
  }

  lemma KeysOfTail<K, V>(entries: seq<(K, V)>)
    requires |entries| > 0
    ensures Keys(entries) == {entries[0].0} + Keys(entries[1..])
  {
    forall k | k in Keys(entries) ensures k in {entries[0].0} + Keys(entries[1..]) {
      var i :| 0 <= i < |entries| && entries[i].0 == k;
      if i > 0 { assert entries[1..][i - 1].0 == k; }
    }
    forall k | k in Keys(entries[1..]) ensures k in Keys(entries) {
      var i :| 0 <= i < |entries[1..]| && entries[1..][i].0 == k;
      assert entries[i + 1].0 == k;
    }
  }

  /**
   * Writing every entry unconditionally (`writeFileSync`, `copyFileSync`):
   * every name the batch writes ends up with its last entry's content, and
   * every other name keeps what it had.
   */
  function Overwrite<K, V>(dir: map<K, V>, entries: seq<(K, V)>): (r: map<K, V>)
    ensures r.Keys == dir.Keys + Keys(entries)
    ensures Untouched(dir, Keys(entries), r)
    ensures LastEntriesWin(entries, r)
    decreases |entries|
  {
    if |entries| == 0 then dir
    else
      var rest := entries[1..];
      KeysOfTail(entries);
      var r := Overwrite(dir[entries[0].0 := entries[0].1], rest);
      OverwriteStep(dir, entries, r);
      r
  }

  lemma OverwriteStep<K, V>(dir: map<K, V>, entries: seq<(K, V)>, r: map<K, V>)
    requires |entries| > 0
    requires Untouched(dir[entries[0].0 := entries[0].1], Keys(entries[1..]), r)
    requires LastEntriesWin(entries[1..], r)
    ensures LastEntriesWin(entries, r)
  {
    var rest := entries[1..];
    forall i | 1 <= i < |entries| && LastWithKey(entries, i) ensures LastWithKey(rest, i - 1) {
      forall j | i - 1 < j < |rest| ensures rest[j].0 != rest[i - 1].0 {
        assert rest[j] == entries[j + 1];
      }
    }
    if LastWithKey(entries, 0) {
      forall j | 0 <= j < |rest| ensures rest[j].0 != entries[0].0 {
        assert rest[j] == entries[j + 1];
      }
    }
  }

  /**
   * Writing an entry only when its name is not there yet (the
   * `!existsSync(skillDir)` guard): nothing already present changes, and a
   * new name gets the content of its first entry.
   */
  function AddMissing<K, V>(dir: map<K, V>, entries: seq<(K, V)>): (r: map<K, V>)
    ensures r.Keys == dir.Keys + Keys(entries)
    ensures Untouched(dir, {}, r)
    ensures FirstEntriesFill(dir, entries, r)
    decreases |entries|
  {
    if |entries| == 0 then dir
    else
      var rest := entries[1..];
      KeysOfTail(entries);
      var next := if entries[0].0 in dir then dir else dir[entries[0].0 := entries[0].1];
      var r := AddMissing(next, rest);
      AddMissingStep(dir, entries, next, r);
      r
  }

  lemma AddMissingStep<K, V>(dir: map<K, V>, entries: seq<(K, V)>, next: map<K, V>, r: map<K, V>)
    requires |entries| > 0
    requires next == if entries[0].0 in dir then dir else dir[entries[0].0 := entries[0].1]
    requires Untouched(next, {}, r)
    requires FirstEntriesFill(next, entries[1..], r)
    ensures FirstEntriesFill(dir, entries, r)
  {
    var rest := entries[1..];
    forall i | 1 <= i < |entries| && FirstWithKey(entries, i) && entries[i].0 !in dir
      ensures entries[i].0 in r && r[entries[i].0] == entries[i].1
    {
      assert entries[i].0 != entries[0].0;
      assert rest[i - 1] == entries[i];
      forall j | 0 <= j < i - 1 ensures rest[j].0 != rest[i - 1].0 {
        assert rest[j] == entries[j + 1];
      }
    }
  }

  /** Writing two batches one after the other is writing their concatenation. */
  lemma {:induction false} AddMissingAppend<K, V>(dir: map<K, V>, a: seq<(K, V)>, b: seq<(K, V)>)
    ensures AddMissing(dir, a + b) == AddMissing(AddMissing(dir, a), b)
    decreases |a|
  {
    if |a| == 0 {
      assert a + b == b;
    } else {
      var next := if a[0].0 in dir then dir else dir[a[0].0 := a[0].1];
      assert (a + b)[1..] == a[1..] + b;
      AddMissingAppend(next, a[1..], b);
    }
  }

  /** A later pass that changes nothing already present keeps the winners of an earlier batch. */
  lemma WinnersSurvive<K, V>(entries: seq<(K, V)>, mid: map<K, V>, r: map<K, V>)
    requires LastEntriesWin(entries, mid)
    requires Untouched(mid, {}, r)
    ensures LastEntriesWin(entries, r)
  {
  }

  /** Names untouched by two passes in a row are untouched by both together. */
  lemma UntouchedTrans<K, V>(a: map<K, V>, names: set<K>, b: map<K, V>, c: map<K, V>)
    requires Untouched(a, names, b)
    requires Untouched(b, {}, c)
    ensures Untouched(a, names, c)
  {
  }

  /** Names untouched by two passes in a row are those untouched by either. */
  lemma UntouchedCompose<K, V>(a: map<K, V>, n1: set<K>, b: map<K, V>, n2: set<K>, c: map<K, V>)
    requires Untouched(a, n1, b)
    requires Untouched(b, n2, c)
    ensures Untouched(a, n1 + n2, c)
  {
  }

  /** The names a sequence of batches writes; a missing batch (`None`) writes none. */
  function BatchKeys<K, V>(batches: seq<Option<seq<(K, V)>>>): set<K>
    decreases |batches|
  {
    if |batches| == 0 then {}
    else (if batches[0].Some? then Keys(batches[0].value) else {}) + BatchKeys(batches[1..])
  }

  /**
   * Several first-writer-wins batches in order, skipping missing ones: the
   * names of every batch are added, and nothing already present changes.
   */
  function AddBatches<K, V>(dir: map<K, V>, batches: seq<Option<seq<(K, V)>>>): (r: map<K, V>)
    ensures r.Keys == dir.Keys + BatchKeys(batches)
    ensures Untouched(dir, {}, r)
    decreases |batches|
  {
    if |batches| == 0 then dir
    else
      var next := if batches[0].Some? then AddMissing(dir, batches[0].value) else dir;
      var r := AddBatches(next, batches[1..]);
      UntouchedTrans(dir, {}, next, r);
      r
  }

  /** Two runs of batches one after the other are one run of their concatenation. */
  lemma {:induction false} AddBatchesAppend<K, V>(dir: map<K, V>, a: seq<Option<seq<(K, V)>>>,
                                                  b: seq<Option<seq<(K, V)>>>)
    ensures AddBatches(dir, a + b) == AddBatches(AddBatches(dir, a), b)
    decreases |a|
  {
    if |a| == 0 {
      assert a + b == b;
    } else {
      assert (a + b)[0] == a[0];
      assert (a + b)[1..] == a[1..] + b;
      var next := if a[0].Some? then AddMissing(dir, a[0].value) else dir;
      AddBatchesAppend(next, a[1..], b);
    }
  }

  /** A name the first batch brings and nobody has yet gets that batch's first entry of that name. */
  lemma FirstBatchFillsGap<K, V>(dir: map<K, V>, batches: seq<Option<seq<(K, V)>>>, i: nat)
    requires |batches| > 0 && batches[0].Some? && i < |batches[0].value|
    requires FirstWithKey(batches[0].value, i) && batches[0].value[i].0 !in dir
    ensures var e := batches[0].value[i];
            e.0 in AddBatches(dir, batches) && AddBatches(dir, batches)[e.0] == e.1
  {
    var next := AddMissing(dir, batches[0].value);
    assert AddBatches(dir, batches) == AddBatches(next, batches[1..]);
  }
}
