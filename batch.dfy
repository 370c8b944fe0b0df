/**
 * What a whole `handle` run contributes to `ctx.output`: one record per item
 * whose task reached the `push`, nothing for the others, in input order.
 * The orchestration is stated for any per-item task; `ItemTask` is the one
 * `handle` runs.
 */
module Batch {
  import opened Wrappers
  import opened Settings
  import opened Pipeline

  /** One item's task: its record (with the warning flag), or why it failed. */
  type Task = string -> Result<Processed, ItemError>

  /** What `handle` runs for each item of a batch with the resolved settings. */
  function ItemTask(env: Env, run: RunSettings): Task
  {
    item => ProcessItem(env, run, item)
  }

  /** What one item's task adds to `ctx.output`: its record, or nothing once it has failed. */
  function Contribution(task: Task, item: string): (c: seq<OutputRecord>)
    ensures |c| <= 1
    ensures c != [] <==> task(item).Ok?
    ensures c != [] ==> c[0] == task(item).value.record
  {
    match task(item)
    case Ok(p) => [p.record]
    case Err(_) => []
  }

  /** The records a run over `items` appends, item by item. */
  function Emitted(task: Task, items: seq<string>): (out: seq<OutputRecord>)
    ensures |out| <= |items|
    decreases |items|
  {
    if items == [] then []
    else Emitted(task, items[..|items| - 1]) + Contribution(task, items[|items| - 1])
  }

  /** How many items of `items` succeed. */
  function SuccessCount(task: Task, items: seq<string>): (n: nat)
    ensures n <= |items|
    decreases |items|
  {
    if items == [] then 0
    else SuccessCount(task, items[..|items| - 1]) + (if task(items[|items| - 1]).Ok? then 1 else 0)
  }

  /** Items are handled independently: a run over `xs + ys` emits what `xs` emits, then what `ys` emits. */
  lemma {:induction false} EmittedAppend(task: Task, xs: seq<string>, ys: seq<string>)
    ensures Emitted(task, xs + ys) == Emitted(task, xs) + Emitted(task, ys)
    decreases |ys|
  {
    if ys == [] {
      assert xs + ys == xs;
    } else {
      var ys' := ys[..|ys| - 1];
      assert (xs + ys)[..|xs + ys| - 1] == xs + ys';
      assert (xs + ys)[|xs + ys| - 1] == ys[|ys| - 1];
      EmittedAppend(task, xs, ys');
    }
  }

  /** A run over a single item emits exactly its contribution. */
  lemma EmittedSingle(task: Task, x: string)
    ensures Emitted(task, [x]) == Contribution(task, x)
  {
    assert [x][..0] == [];
  }

  /** Running one more item of the batch appends that item's contribution. */
  lemma EmittedPrefix(task: Task, items: seq<string>, i: nat)
    requires i < |items|
    ensures Emitted(task, items[..i + 1]) == Emitted(task, items[..i]) + Contribution(task, items[i])
  {
    assert items[..i + 1][..i] == items[..i];
  }

  /** The loop step of `handle`: appending item `i`'s contribution extends the prefix by one. */
  lemma EmittedStep(task: Task, before: seq<OutputRecord>, items: seq<string>, i: nat, done: seq<OutputRecord>)
    requires i < |items|
    requires done == before + Emitted(task, items[..i])
    ensures done + Contribution(task, items[i]) == before + Emitted(task, items[..i + 1])
  {
    EmittedPrefix(task, items, i);
  }

  /** An item in the middle of a batch contributes between the items before and after it. */
  lemma EmittedMiddle(task: Task, xs: seq<string>, x: string, ys: seq<string>)
    ensures Emitted(task, xs + [x] + ys) == Emitted(task, xs) + Contribution(task, x) + Emitted(task, ys)
  {
    EmittedSingle(task, x);
    EmittedAppend(task, xs, [x]);
    EmittedAppend(task, xs + [x], ys);
  }

  /** A failing item adds nothing and does not stop the items after it. */
  lemma FailedItemIsolated(task: Task, xs: seq<string>, x: string, ys: seq<string>)
    requires task(x).Err?
    ensures Emitted(task, xs + [x] + ys) == Emitted(task, xs) + Emitted(task, ys)
  {
    EmittedMiddle(task, xs, x, ys);
    assert Contribution(task, x) == [];
  }

  /** Exactly one record per successful item. */
  lemma {:induction false} EmittedCount(task: Task, items: seq<string>)
    ensures |Emitted(task, items)| == SuccessCount(task, items)
    decreases |items|
  {
    if items != [] {
      EmittedCount(task, items[..|items| - 1]);
    }
  }

  /** When every item succeeds, every item yields a record. */
  lemma {:induction false} AllSucceed(task: Task, items: seq<string>)
    requires forall i :: 0 <= i < |items| ==> task(items[i]).Ok?
    ensures |Emitted(task, items)| == |items|
    decreases |items|
  {
    if items != [] {
      var init := items[..|items| - 1];
      assert forall i :: 0 <= i < |init| ==> init[i] == items[i];
      AllSucceed(task, init);
    }
  }

  /**
   * A batch of N items of which only item k fails yields N - 1 records: those
   * of the items before k followed by those of the items after it.
   */
  lemma OneFailure(task: Task, items: seq<string>, k: int)
    requires 0 <= k < |items|
    requires task(items[k]).Err?
    requires forall i :: 0 <= i < |items| && i != k ==> task(items[i]).Ok?
    ensures Emitted(task, items) == Emitted(task, items[..k]) + Emitted(task, items[k + 1..])
    ensures |Emitted(task, items)| == |items| - 1
  {
    var before, after := items[..k], items[k + 1..];
    assert items == before + [items[k]] + after;
    FailedItemIsolated(task, before, items[k], after);
    forall i | 0 <= i < |before| ensures task(before[i]).Ok? {
      assert before[i] == items[i];
    }
    forall i | 0 <= i < |after| ensures task(after[i]).Ok? {
      assert after[i] == items[k + 1 + i];
    }
    AllSucceed(task, before);
    AllSucceed(task, after);
  }

  /** Every emitted record is the record of some successful item of the batch. */
  lemma {:induction false} EmittedRecordsSound(task: Task, items: seq<string>)
    ensures forall r :: r in Emitted(task, items) ==>
              exists i :: 0 <= i < |items| && Contribution(task, items[i]) == [r]
    decreases |items|
  {
    if items != [] {
      var init, last := items[..|items| - 1], items[|items| - 1];
      EmittedRecordsSound(task, init);
      forall r | r in Emitted(task, items)
        ensures exists i :: 0 <= i < |items| && Contribution(task, items[i]) == [r]
      {
        if r in Emitted(task, init) {
          var i :| 0 <= i < |init| && Contribution(task, init[i]) == [r];
          assert items[i] == init[i];
        } else {
          assert Contribution(task, items[|items| - 1]) == [r];
        }
      }
    }
  }

  /** Every successful item's record is emitted. */
  lemma {:induction false} EmittedRecordsComplete(task: Task, items: seq<string>)
    ensures forall i :: 0 <= i < |items| && task(items[i]).Ok? ==>
              task(items[i]).value.record in Emitted(task, items)
    decreases |items|
  {
    if items != [] {
      var init, last := items[..|items| - 1], items[|items| - 1];
      EmittedRecordsComplete(task, init);
      forall i | 0 <= i < |items| && task(items[i]).Ok?
        ensures task(items[i]).value.record in Emitted(task, items)
      {
        if i < |init| {
          assert items[i] == init[i];
        } else {
          assert Contribution(task, last) == [task(last).value.record];
        }
      }
    }
  }

  /** The last item of `a` occurs in `b`; without them the two are still permutations of each other. */
  lemma MultisetRemoveMatching(a: seq<string>, b: seq<string>) returns (j: nat)
    requires multiset(a) == multiset(b) && a != []
    ensures j < |b| && b[j] == a[|a| - 1]
    ensures multiset(a[..|a| - 1]) == multiset(b[..j] + b[j + 1..])
  {
    assert a[|a| - 1] in multiset(b);
    j :| 0 <= j < |b| && b[j] == a[|a| - 1];
    var init, xs, ys := a[..|a| - 1], b[..j], b[j + 1..];
    assert a == init + [b[j]];
    assert b[..j + 1] == xs + [b[j]];
    assert b == b[..j + 1] + ys;
    calc {
      multiset(init);
      multiset(a) - multiset{b[j]};
      multiset(b) - multiset{b[j]};
      multiset(xs) + multiset(ys);
      multiset(xs + ys);
    }
  }

  /** A sequence is what precedes position `j`, the element there, and what follows. */
  lemma SplitAt(s: seq<string>, j: nat)
    requires j < |s|
    ensures s == s[..j] + [s[j]] + s[j + 1..]
  {
    assert s[..j + 1] == s[..j] + [s[j]];
    assert s == s[..j + 1] + s[j + 1..];
  }

  /** Item `j` of a batch contributes between the items before and after it. */
  lemma EmittedAt(task: Task, items: seq<string>, j: nat)
    requires j < |items|
    ensures Emitted(task, items) == Emitted(task, items[..j]) + Contribution(task, items[j]) + Emitted(task, items[j + 1..])
  {
    SplitAt(items, j);
    EmittedMiddle(task, items[..j], items[j], items[j + 1..]);
  }

  /** Moving a block of records into the middle does not change the multiset. */
  lemma MultisetInsert(e: seq<OutputRecord>, p: seq<OutputRecord>, q: seq<OutputRecord>, c: seq<OutputRecord>)
    requires multiset(e) == multiset(p + q)
    ensures multiset(e + c) == multiset(p + c + q)
  {
  }

  /**
   * Completion order does not matter: any reordering of the items emits the
   * same records, up to order.
   */
  lemma {:induction false} EmittedPermutation(task: Task, a: seq<string>, b: seq<string>)
    requires multiset(a) == multiset(b)
    ensures multiset(Emitted(task, a)) == multiset(Emitted(task, b))
    decreases |a|
  {
    if a == [] {
      assert |b| == |multiset(b)| == 0;
    } else {
      var init := a[..|a| - 1];
      var j := MultisetRemoveMatching(a, b);
      var xs, ys := b[..j], b[j + 1..];
      EmittedPermutation(task, init, xs + ys);
      EmittedAppend(task, xs, ys);
      EmittedAt(task, b, j);
      MultisetInsert(Emitted(task, init), Emitted(task, xs), Emitted(task, ys), Contribution(task, b[j]));
    }
  }

  /**
   * In a run of `handle`, every emitted record names the run's format:
   * `extname` is `"." + outputType` and `fileName` is the base name of the
   * item it came from followed by that extension.
   */
  lemma EmittedRecordsNamed(env: Env, run: RunSettings, items: seq<string>)
    ensures forall r :: r in Emitted(ItemTask(env, run), items) ==>
              r.extname == "." + run.outputType
              && exists i :: 0 <= i < |items| && Contribution(ItemTask(env, run), items[i]) == [r]
                                && r.fileName == RealBaseName(items[i]) + r.extname
  {
    var task := ItemTask(env, run);
    EmittedRecordsSound(task, items);
    forall r | r in Emitted(task, items)
      ensures r.extname == "." + run.outputType
      ensures exists i :: 0 <= i < |items| && Contribution(task, items[i]) == [r]
                           && r.fileName == RealBaseName(items[i]) + r.extname
    {
      var i :| 0 <= i < |items| && Contribution(task, items[i]) == [r];
      assert task(items[i]) == ProcessItem(env, run, items[i]);
    }
  }
}
