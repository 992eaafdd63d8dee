/**
 * The batch writer of the table client: a queue of put and delete
 * requests, each tagged with its table. One round of `exec` cuts the
 * queue into consecutive batches of at most 25 requests, groups each
 * batch's requests under their table, and queues for the next round
 * exactly the requests the service reports as unprocessed.
 */
module BatchWrites {
  import opened Results
  import opened OrderedCollections
  import opened Text

  /** A marshalled item or key, abstracted to attribute names and their rendered values. */
  type Record = map<string, string>

  datatype WriteRequest = PutRequest(item: Record) | DeleteRequest(key: Record)

  /** A queued request and the table it is for. */
  datatype Input = Input(table: string, item: WriteRequest)

  /** RequestItems of one call: the requests of each table, tables in first-seen order. */
  type Batch = seq<(string, seq<WriteRequest>)>

  /** The batch max size. */
  const BatchSize: nat := 25

  // ----- Partition -----

  function Min(a: nat, b: nat): nat { if a < b then a else b }

  /** The queue cut into consecutive slices of `BatchSize`, the last one possibly shorter. */
  function Partition(queue: seq<Input>): seq<seq<Input>>
    decreases |queue|
  {
    if queue == [] then []
    else
      var n := Min(BatchSize, |queue|);
      [queue[..n]] + Partition(queue[n..])
  }

  function Flatten(parts: seq<seq<Input>>): seq<Input> {
    if parts == [] then [] else parts[0] + Flatten(parts[1..])
  }

  /** The number of batches is ceil(n / 25); an empty queue has none. */
  lemma {:induction false} PartitionCount(queue: seq<Input>)
    ensures |Partition(queue)| == (|queue| + BatchSize - 1) / BatchSize
    decreases |queue|
  {
    if queue != [] {
      PartitionCount(queue[Min(BatchSize, |queue|)..]);
    }
  }

  /** Each batch holds between 1 and 25 requests. */
  lemma {:induction false} PartitionSizes(queue: seq<Input>)
    ensures forall k :: 0 <= k < |Partition(queue)| ==> 1 <= |Partition(queue)[k]| <= BatchSize
    decreases |queue|
  {
    if queue != [] {
      var n := Min(BatchSize, |queue|);
      PartitionSizes(queue[n..]);
      assert Partition(queue) == [queue[..n]] + Partition(queue[n..]);
    }
  }

  /** The batches, read in order, are the queue: every request is sent once, in queue order. */
  lemma {:induction false} PartitionFlatten(queue: seq<Input>)
    ensures Flatten(Partition(queue)) == queue
    decreases |queue|
  {
    if queue != [] {
      var n := Min(BatchSize, |queue|);
      PartitionFlatten(queue[n..]);
      assert Partition(queue)[1..] == Partition(queue[n..]);
      assert queue[..n] + queue[n..] == queue;
    }
  }

  // ----- Grouping by table -----

  /** The requests stored under `table` so far. */
  function Items(items: Batch, table: string): seq<WriteRequest> {
    match Lookup(items, table)
    case None => []
    case Some(requests) => requests
  }

  /** The RequestItems of one batch: each request appended to its table's list. */
  function Group(inputs: seq<Input>): Batch {
    if inputs == [] then []
    else
      var rest := Group(inputs[..|inputs| - 1]);
      var input := inputs[|inputs| - 1];
      Put(rest, input.table, Items(rest, input.table) + [input.item])
  }

  /** The requests of `inputs` that are for `table`, in order. */
  function RequestsFor(inputs: seq<Input>, table: string): seq<WriteRequest> {
    if inputs == [] then []
    else
      RequestsFor(inputs[..|inputs| - 1], table)
        + (if inputs[|inputs| - 1].table == table then [inputs[|inputs| - 1].item] else [])
  }

  /** The tables of `inputs`, each once, in first-seen order. */
  function Tables(inputs: seq<Input>): seq<string> {
    if inputs == [] then [] else Insert(Tables(inputs[..|inputs| - 1]), inputs[|inputs| - 1].table)
  }

  /** The tables of a batch come in first-seen order. */
  lemma {:induction false} GroupKeys(inputs: seq<Input>)
    ensures Keys(Group(inputs)) == Tables(inputs)
  {
    if inputs != [] {
      GroupKeys(inputs[..|inputs| - 1]);
    }
  }

  /** Each table of the batch holds exactly its requests, in their relative order. */
  lemma {:induction false} GroupLookup(inputs: seq<Input>, table: string)
    ensures table in Tables(inputs) ==> Lookup(Group(inputs), table) == Some(RequestsFor(inputs, table))
    ensures table !in Tables(inputs) ==> Lookup(Group(inputs), table).None? && RequestsFor(inputs, table) == []
  {
    if inputs == [] {
      assert Tables(inputs) == [] && RequestsFor(inputs, table) == [];
    } else {
      var init, input := inputs[..|inputs| - 1], inputs[|inputs| - 1];
      GroupLookup(init, table);
      GroupKeys(init);
      GroupKeys(inputs);
      var rest := Group(init);
      var requests := Items(rest, input.table) + [input.item];
      assert Group(inputs) == Put(rest, input.table, requests);
      assert Tables(inputs) == Insert(Tables(init), input.table);
      if table != input.table {
        assert table in Tables(inputs) ==> table in Tables(init);
        assert RequestsFor(inputs, table) == RequestsFor(init, table) + [];
        assert RequestsFor(init, table) + [] == RequestsFor(init, table);
        PutOther(rest, input.table, requests, table);
        assert Lookup(Group(inputs), table) == Lookup(rest, table);
      } else {
        assert RequestsFor(inputs, table) == RequestsFor(init, table) + [input.item];
        assert Items(rest, table) == RequestsFor(init, table);
        assert Lookup(Group(inputs), table) == Some(RequestsFor(inputs, table));
      }
    }
  }

  /** The grouped tables are distinct. */
  lemma {:induction false} TablesDistinct(inputs: seq<Input>)
    ensures Distinct(Tables(inputs))
  {
    if inputs != [] {
      TablesDistinct(inputs[..|inputs| - 1]);
      InsertDistinct(Tables(inputs[..|inputs| - 1]), inputs[|inputs| - 1].table);
    }
  }

  /** The number of requests a batch holds. */
  function Size(items: Batch): nat {
    if items == [] then 0 else |items[0].1| + Size(items[1..])
  }

  lemma {:induction false} SizePut(items: Batch, table: string, requests: seq<WriteRequest>)
    ensures Size(Put(items, table, requests)) == Size(items) - |Items(items, table)| + |requests|
    ensures |Items(items, table)| <= Size(items)
  {
    if items != [] {
      SizePut(items[1..], table, requests);
      if items[0].0 != table {
        var rest := Put(items[1..], table, requests);
        assert ([items[0]] + rest)[1..] == rest;
      } else {
        assert ([(table, requests)] + items[1..])[1..] == items[1..];
      }
    }
  }

  /** Grouping loses and duplicates nothing: a batch holds as many requests as its slice of the queue. */
  lemma {:induction false} GroupSize(inputs: seq<Input>)
    ensures Size(Group(inputs)) == |inputs|
  {
    if inputs != [] {
      var init, input := inputs[..|inputs| - 1], inputs[|inputs| - 1];
      GroupSize(init);
      SizePut(Group(init), input.table, Items(Group(init), input.table) + [input.item]);
    }
  }

  /** `items[table] ??= []; items[table].push(item)` for each input of a slice. */
  method GroupBatch(inputs: seq<Input>) returns (items: Batch)
    ensures items == Group(inputs)
  {
    items := [];
    for i := 0 to |inputs|
      invariant items == Group(inputs[..i])
    {
      assert inputs[..i + 1][..i] == inputs[..i];
      var input := inputs[i];
      items := Put(items, input.table, Items(items, input.table) + [input.item]);
    }
    assert inputs[..|inputs|] == inputs;
  }

  /** One batch per slice of the partition. */
  function Groups(parts: seq<seq<Input>>): (r: seq<Batch>)
    ensures |r| == |parts|
    ensures forall k :: 0 <= k < |parts| ==> r[k] == Group(parts[k])
  {
    if parts == [] then [] else [Group(parts[0])] + Groups(parts[1..])
  }

  /** The queue from `index` on, empty once the index has run past the end. */
  function From(queue: seq<Input>, index: nat): seq<Input> {
    if index < |queue| then queue[index..] else []
  }

  /** The slice cut at `index` and the partition of what follows it. */
  lemma PartitionFrom(queue: seq<Input>, index: nat)
    requires index < |queue|
    ensures Groups(Partition(From(queue, index)))
         == [Group(queue[index..index + Min(BatchSize, |queue| - index)])]
            + Groups(Partition(From(queue, index + BatchSize)))
  {
    var rest := queue[index..];
    var n := Min(BatchSize, |rest|);
    assert rest[..n] == queue[index..index + n];
    assert rest[n..] == From(queue, index + BatchSize);
    assert Partition(rest) == [rest[..n]] + Partition(rest[n..]);
    assert Partition(rest)[1..] == Partition(rest[n..]);
  }

  /** The batch loop of one round: slices of `BatchSize` from the queue, each grouped by table. */
  method Batches(unprocessed: seq<Input>) returns (batches: seq<Batch>)
    ensures batches == Groups(Partition(unprocessed))
  {
    batches := [];
    var index := 0;
    assert From(unprocessed, 0) == unprocessed || unprocessed == [];
    while index < |unprocessed|
      invariant batches + Groups(Partition(From(unprocessed, index))) == Groups(Partition(unprocessed))
      decreases |unprocessed| - index
    {
      var inputs := unprocessed[index..index + Min(BatchSize, |unprocessed| - index)];
      var items := GroupBatch(inputs);
      PartitionFrom(unprocessed, index);
      ConcatAssociative(batches, [items], Groups(Partition(From(unprocessed, index + BatchSize))));
      batches := batches + [items];
      index := index + BatchSize;
    }
    assert From(unprocessed, index) == [];
  }

  /** Every batch of a round carries between 1 and 25 requests, spread over distinct tables. */
  lemma BatchesBounded(queue: seq<Input>)
    ensures forall k :: 0 <= k < |Groups(Partition(queue))| ==>
      1 <= Size(Groups(Partition(queue))[k]) <= BatchSize && Distinct(Keys(Groups(Partition(queue))[k]))
  {
    PartitionSizes(queue);
    forall k | 0 <= k < |Groups(Partition(queue))|
      ensures 1 <= Size(Groups(Partition(queue))[k]) <= BatchSize && Distinct(Keys(Groups(Partition(queue))[k]))
    {
      GroupSize(Partition(queue)[k]);
      GroupKeys(Partition(queue)[k]);
      TablesDistinct(Partition(queue)[k]);
    }
  }

  // ----- Re-queueing -----

  /** The requests of one table, tagged with it, in order. */
  function Tagged(table: string, items: seq<WriteRequest>): seq<Input> {
    if items == [] then [] else Tagged(table, items[..|items| - 1]) + [Input(table, items[|items| - 1])]
  }

  /** Every request of a batch, tagged with its table, table by table. */
  function Entries(batch: Batch): seq<Input> {
    if batch == [] then [] else Entries(batch[..|batch| - 1]) + Tagged(batch[|batch| - 1].0, batch[|batch| - 1].1)
  }

  /** The next round's queue: the unprocessed requests of each output, outputs in call order. */
  function Requeued(outputs: seq<Option<Batch>>): seq<Input> {
    if outputs == [] then []
    else
      var last := outputs[|outputs| - 1];
      Requeued(outputs[..|outputs| - 1]) + (if last.Some? then Entries(last.value) else [])
  }

  lemma {:induction false} TaggedSize(table: string, items: seq<WriteRequest>)
    ensures |Tagged(table, items)| == |items|
  {
    if items != [] {
      TaggedSize(table, items[..|items| - 1]);
    }
  }

  lemma SizeAppend(batch: Batch, entry: (string, seq<WriteRequest>))
    ensures Size(batch + [entry]) == Size(batch) + |entry.1|
  {
    if batch != [] {
      assert (batch + [entry])[1..] == batch[1..] + [entry];
      SizeAppend(batch[1..], entry);
    }
  }

  /** Re-queueing keeps every reported request once: as many as the outputs report. */
  lemma {:induction false} EntriesSize(batch: Batch)
    ensures |Entries(batch)| == Size(batch)
  {
    if batch != [] {
      var init := batch[..|batch| - 1];
      EntriesSize(init);
      TaggedSize(batch[|batch| - 1].0, batch[|batch| - 1].1);
      SizeAppend(init, batch[|batch| - 1]);
      assert init + [batch[|batch| - 1]] == batch;
    }
  }

  /** Outputs that report nothing unprocessed end the loop: the next queue is empty. */
  lemma {:induction false} NothingUnprocessed(outputs: seq<Option<Batch>>)
    requires forall k :: 0 <= k < |outputs| ==> outputs[k].None? || outputs[k].value == []
    ensures Requeued(outputs) == []
  {
    if outputs != [] {
      NothingUnprocessed(outputs[..|outputs| - 1]);
    }
  }

  /** Each tagged entry is the table with one of its reported requests. */
  lemma {:induction false} TaggedAt(table: string, items: seq<WriteRequest>, k: nat)
    requires k < |items|
    ensures |Tagged(table, items)| == |items| && Tagged(table, items)[k] == Input(table, items[k])
  {
    TaggedSize(table, items);
    if k < |items| - 1 {
      TaggedAt(table, items[..|items| - 1], k);
    }
  }

  /** The re-queue loop: every unprocessed request of every output, with the table it was reported under. */
  method Requeue(outputs: seq<Option<Batch>>) returns (unprocessed: seq<Input>)
    ensures unprocessed == Requeued(outputs)
  {
    unprocessed := [];
    for i := 0 to |outputs|
      invariant unprocessed == Requeued(outputs[..i])
    {
      assert outputs[..i + 1][..i] == outputs[..i];
      var output := outputs[i];
      if output.None? {
        continue;
      }
      var batch := output.value;
      for j := 0 to |batch|
        invariant unprocessed == Requeued(outputs[..i]) + Entries(batch[..j])
      {
        assert batch[..j + 1][..j] == batch[..j];
        var (table, items) := batch[j];
        for k := 0 to |items|
          invariant unprocessed == Requeued(outputs[..i]) + Entries(batch[..j]) + Tagged(table, items[..k])
        {
          assert items[..k + 1][..k] == items[..k];
          unprocessed := unprocessed + [Input(table, items[k])];
        }
        assert items[..|items|] == items;
      }
      assert batch[..|batch|] == batch;
    }
    assert outputs[..|outputs|] == outputs;
  }

  /** The queue a batch write collects. */
  class BatchWrite {
    var inputs: seq<Input>

    constructor()
      ensures inputs == []
    {
      inputs := [];
    }

    /** Queue a put request for `table`. */
    method Put(table: string, request: Record)
      modifies this
      ensures inputs == old(inputs) + [Input(table, PutRequest(request))]
    {
      inputs := inputs + [Input(table, PutRequest(request))];
    }

    /** Queue a delete request for `table`. */
    method Delete(table: string, key: Record)
      modifies this
      ensures inputs == old(inputs) + [Input(table, DeleteRequest(key))]
    {
      inputs := inputs + [Input(table, DeleteRequest(key))];
    }

    /** The batches of the first round of `exec`, sent from a copy of the queue. */
    method FirstRound() returns (batches: seq<Batch>)
      ensures batches == Groups(Partition(inputs))
      ensures |batches| == (|inputs| + BatchSize - 1) / BatchSize
    {
      batches := Batches(inputs);
      PartitionCount(inputs);
    }
  }
}
