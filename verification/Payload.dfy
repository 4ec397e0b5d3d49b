/** Fetching the transactions behind a block's payload (`consensus/src/payload_manager.rs`). */
module PayloadFetch {
  import opened Types

  type Transaction = nat
  type LogicalTime = (Epoch, Round)

  datatype ProofOfStore = ProofOfStore(digest: HashValue, expiration: LogicalTime)

  datatype FetchError = DataNotFound(digest: HashValue) | BatchFailed(code: nat)

  /** What awaiting a receiver yields: nothing, if the channel was dropped, or the batch reader's answer. */
  datatype Outcome = Dropped | Answered(answer: Result<seq<Transaction>, FetchError>)

  datatype Receiver = Receiver(digest: HashValue, outcome: Outcome)

  datatype DataStatus = Cached(data: seq<Transaction>) | Requested(receivers: seq<Receiver>)

  /** `Panicked`: the status was taken while nobody had put one there. */
  datatype Answer = Got(transactions: seq<Transaction>) | Failed(error: FetchError) | Panicked

  /** One round of requests: what the batch reader will answer for each position of the payload. */
  type Reader = nat -> Outcome

  predicate TimeAtMost(a: LogicalTime, b: LogicalTime) {
    a.0 < b.0 || (a.0 == b.0 && a.1 <= b.1)
  }

  /** Expiry is compared in a total order, first by epoch. */
  lemma TimeIsOrdered(a: LogicalTime, b: LogicalTime, c: LogicalTime)
    ensures TimeAtMost(a, a) && (TimeAtMost(a, b) || TimeAtMost(b, a))
    ensures TimeAtMost(a, b) && TimeAtMost(b, a) ==> a == b
    ensures TimeAtMost(a, b) && TimeAtMost(b, c) ==> TimeAtMost(a, c)
    ensures a.0 < b.0 ==> !TimeAtMost(b, a)
  {
  }

  function Requests(proofs: seq<ProofOfStore>, time: LogicalTime, reader: Reader): seq<Receiver> {
    if proofs == [] then []
    else
      var n := |proofs| - 1;
      var before := Requests(proofs[..n], time, reader);
      if TimeAtMost(time, proofs[n].expiration) then before + [Receiver(proofs[n].digest, reader(n))] else before
  }

  function Concat(parts: seq<seq<Transaction>>): seq<Transaction> {
    if parts == [] then [] else Concat(parts[..|parts| - 1]) + parts[|parts| - 1]
  }

  /** Await the receivers in order, up to the first failure. */
  function Collect(receivers: seq<Receiver>): Result<seq<Transaction>, FetchError> {
    if receivers == [] then Ok([])
    else
      var n := |receivers| - 1;
      var before := Collect(receivers[..n]);
      if before.Err? then before
      else match receivers[n].outcome
        case Dropped => Err(DataNotFound(receivers[n].digest))
        case Answered(Err(e)) => Err(e)
        case Answered(Ok(data)) => Ok(before.value + data)
  }

  function Prefetched(proofs: seq<ProofOfStore>, time: LogicalTime, status: Option<DataStatus>, reader: Reader)
    : Option<DataStatus>
  {
    if status.None? then Some(Requested(Requests(proofs, time, reader))) else status
  }

  function Fetched(proofs: seq<ProofOfStore>, time: LogicalTime, status: Option<DataStatus>, reader: Reader)
    : (Option<DataStatus>, Answer)
  {
    match status
    case None => (None, Panicked)
    case Some(Cached(data)) => (status, Got(data))
    case Some(Requested(receivers)) =>
      match Collect(receivers)
      case Ok(data) => (Some(Cached(data)), Got(data))
      case Err(e) => (Some(Requested(Requests(proofs, time, reader))), Failed(e))
  }

  method RequestTransactions(proofs: seq<ProofOfStore>, time: LogicalTime, reader: Reader)
    returns (receivers: seq<Receiver>)
    ensures receivers == Requests(proofs, time, reader)
  {
    receivers := [];
    for i := 0 to |proofs|
      invariant receivers == Requests(proofs[..i], time, reader)
    {
      assert proofs[..i + 1][..i] == proofs[..i];
      if TimeAtMost(time, proofs[i].expiration) {
        receivers := receivers + [Receiver(proofs[i].digest, reader(i))];
      }
    }
    assert proofs[..|proofs|] == proofs;
  }

  /** A block's payload and the locked status of its data. */
  class BlockPayload {
    const proofs: seq<ProofOfStore>
    const time: LogicalTime
    var status: Option<DataStatus>

    constructor (proofs: seq<ProofOfStore>, time: LogicalTime)
      ensures this.proofs == proofs && this.time == time && status == None
    {
      this.proofs, this.time, this.status := proofs, time, None;
    }

    method PrefetchPayloadData(reader: Reader)
      modifies this
      ensures status == Prefetched(proofs, time, old(status), reader)
    {
      if status.None? {
        var receivers := RequestTransactions(proofs, time, reader);
        status := Some(Requested(receivers));
      }
    }

    method GetTransactions(reader: Reader) returns (answer: Answer)
      modifies this
      ensures (status, answer) == Fetched(proofs, time, old(status), reader)
    {
      var taken := status;
      status := None;
      match taken
      case None => return Panicked;
      case Some(Cached(data)) =>
        status := Some(Cached(data));
        return Got(data);
      case Some(Requested(receivers)) =>
        var parts := [];
        for i := 0 to |receivers|
          invariant Collect(receivers[..i]) == Ok(Concat(parts))
          invariant old(status) == Some(Requested(receivers))
        {
          assert receivers[..i + 1][..i] == receivers[..i];
          match receivers[i].outcome
          case Dropped =>
            FailureSticks(receivers, i + 1);
            var again := RequestTransactions(proofs, time, reader);
            status := Some(Requested(again));
            return Failed(DataNotFound(receivers[i].digest));
          case Answered(Err(e)) =>
            FailureSticks(receivers, i + 1);
            var again := RequestTransactions(proofs, time, reader);
            status := Some(Requested(again));
            return Failed(e);
          case Answered(Ok(data)) =>
            assert (parts + [data])[..|parts|] == parts;
            parts := parts + [data];
        }
        assert receivers[..|receivers|] == receivers;
        var ret := Concat(parts);
        status := Some(Cached(ret));
        return Got(ret);
    }
  }

  lemma {:induction false} FailureSticks(receivers: seq<Receiver>, n: nat)
    requires n <= |receivers| && Collect(receivers[..n]).Err?
    ensures Collect(receivers) == Collect(receivers[..n])
    decreases |receivers| - n
  {
    if n == |receivers| {
      assert receivers[..n] == receivers;
    } else {
      assert receivers[..n + 1][..n] == receivers[..n];
      FailureSticks(receivers, n + 1);
    }
  }

  // Meaning

  type Content = HashValue -> seq<Transaction>

  /** The live batches of a payload, in order, end to end. */
  function Meaning(proofs: seq<ProofOfStore>, time: LogicalTime, content: Content): seq<Transaction> {
    if proofs == [] then []
    else
      var n := |proofs| - 1;
      Meaning(proofs[..n], time, content)
      + if TimeAtMost(time, proofs[n].expiration) then content(proofs[n].digest) else []
  }

  /** Digests bind: a batch that is delivered is the one that was asked for. */
  ghost predicate Binding(proofs: seq<ProofOfStore>, reader: Reader, content: Content) {
    forall i: nat :: i < |proofs| && reader(i).Answered? && reader(i).answer.Ok? ==>
      reader(i).answer.value == content(proofs[i].digest)
  }

  /** Every live batch is delivered. */
  ghost predicate Delivers(proofs: seq<ProofOfStore>, time: LogicalTime, reader: Reader) {
    forall i: nat :: i < |proofs| && TimeAtMost(time, proofs[i].expiration) ==>
      reader(i).Answered? && reader(i).answer.Ok?
  }

  /** Requests give the meaning if every live batch is delivered, and fail otherwise. */
  lemma {:induction false} CollectMeans(proofs: seq<ProofOfStore>, time: LogicalTime, reader: Reader, content: Content)
    requires Binding(proofs, reader, content)
    ensures var r := Collect(Requests(proofs, time, reader));
      && (r.Ok? ==> r.value == Meaning(proofs, time, content))
      && (r.Ok? <==> Delivers(proofs, time, reader))
  {
    if proofs != [] {
      var n := |proofs| - 1;
      var before := Requests(proofs[..n], time, reader);
      CollectMeans(proofs[..n], time, reader, content);
      assert Delivers(proofs, time, reader) ==> Delivers(proofs[..n], time, reader);
      if TimeAtMost(time, proofs[n].expiration) {
        assert Requests(proofs, time, reader)[..|before|] == before;
      }
      if Delivers(proofs[..n], time, reader) {
        assert forall i: nat :: i < n ==> proofs[..n][i] == proofs[i];
      }
    }
  }

  // Runs

  datatype Op = Prefetch(reader: Reader) | Get(reader: Reader)

  function StatusAfter(proofs: seq<ProofOfStore>, time: LogicalTime, ops: seq<Op>): Option<DataStatus> {
    if ops == [] then None
    else
      var n := |ops| - 1;
      var before := StatusAfter(proofs, time, ops[..n]);
      match ops[n]
      case Prefetch(reader) => Prefetched(proofs, time, before, reader)
      case Get(reader) => Fetched(proofs, time, before, reader).0
  }

  function AnswerAt(proofs: seq<ProofOfStore>, time: LogicalTime, ops: seq<Op>, i: nat): Answer
    requires i < |ops| && ops[i].Get?
  {
    Fetched(proofs, time, StatusAfter(proofs, time, ops[..i]), ops[i].reader).1
  }

  /** The status of a payload is missing, or stands for its meaning. */
  ghost predicate Represents(proofs: seq<ProofOfStore>, time: LogicalTime, status: Option<DataStatus>,
                             content: Content) {
    match status
    case None => true
    case Some(Cached(data)) => data == Meaning(proofs, time, content)
    case Some(Requested(receivers)) =>
      exists reader :: Binding(proofs, reader, content) && receivers == Requests(proofs, time, reader)
  }

  ghost predicate AllBind(proofs: seq<ProofOfStore>, ops: seq<Op>, content: Content) {
    forall i :: 0 <= i < |ops| ==> Binding(proofs, ops[i].reader, content)
  }

  lemma {:induction false} RunRepresents(proofs: seq<ProofOfStore>, time: LogicalTime, ops: seq<Op>, content: Content)
    requires AllBind(proofs, ops, content)
    ensures Represents(proofs, time, StatusAfter(proofs, time, ops), content)
    ensures StatusAfter(proofs, time, ops).Some? <==> exists i :: 0 <= i < |ops| && ops[i].Prefetch?
  {
    hide Collect, Requests, Meaning;
    if ops != [] {
      var n := |ops| - 1;
      RunRepresents(proofs, time, ops[..n], content);
      StepRepresents(proofs, time, StatusAfter(proofs, time, ops[..n]), ops[n], content);
      assert forall i :: 0 <= i < n ==> ops[..n][i] == ops[i];
      if ops[n].Prefetch? {
        assert exists i :: 0 <= i < |ops| && ops[i].Prefetch?;
      }
    }
  }

  lemma StepRepresents(proofs: seq<ProofOfStore>, time: LogicalTime, status: Option<DataStatus>, op: Op,
                       content: Content)
    requires Represents(proofs, time, status, content) && Binding(proofs, op.reader, content)
    ensures Represents(proofs, time, Prefetched(proofs, time, status, op.reader), content)
    ensures Represents(proofs, time, Fetched(proofs, time, status, op.reader).0, content)
    ensures var a := Fetched(proofs, time, status, op.reader).1;
      && (a.Got? ==> a.transactions == Meaning(proofs, time, content))
      && (a.Panicked? <==> status.None?)
  {
    hide Requests, Collect, Meaning;
    if status.Some? && status.value.Requested? {
      var reader :| Binding(proofs, reader, content) && status.value.receivers == Requests(proofs, time, reader);
      CollectMeans(proofs, time, reader, content);
    }
  }

  /** Through any sequence of prefetches, dropped channels, failed batches and retries: a call panics
      exactly when there was no prefetch before it, and every success returns the payload's meaning. */
  lemma FetchRefinesMeaning(proofs: seq<ProofOfStore>, time: LogicalTime, ops: seq<Op>, content: Content, i: nat)
    requires AllBind(proofs, ops, content) && i < |ops| && ops[i].Get?
    ensures var a := AnswerAt(proofs, time, ops, i);
      && (a.Panicked? <==> forall j :: 0 <= j < i ==> !ops[j].Prefetch?)
      && (a.Got? ==> a.transactions == Meaning(proofs, time, content))
  {
    hide Requests, Collect, Meaning, StatusAfter;
    var before := ops[..i];
    RunRepresents(proofs, time, before, content);
    StepRepresents(proofs, time, StatusAfter(proofs, time, before), ops[i], content);
    assert forall j :: 0 <= j < i ==> before[j] == ops[j];
    assert StatusAfter(proofs, time, before).None? <==> forall j :: 0 <= j < i ==> !before[j].Prefetch?;
  }

  /** Data once delivered stays: every call after a success returns the same. */
  lemma {:induction false} SuccessIsCached(proofs: seq<ProofOfStore>, time: LogicalTime, ops: seq<Op>, i: nat, k: nat)
    requires i < k <= |ops| && ops[i].Get? && AnswerAt(proofs, time, ops, i).Got?
    ensures StatusAfter(proofs, time, ops[..k]) == Some(Cached(AnswerAt(proofs, time, ops, i).transactions))
    ensures k < |ops| && ops[k].Get? ==> AnswerAt(proofs, time, ops, k) == AnswerAt(proofs, time, ops, i)
    decreases k
  {
    hide Requests, Collect;
    assert ops[..k][..k - 1] == ops[..k - 1];
    if i < k - 1 {
      SuccessIsCached(proofs, time, ops, i, k - 1);
    }
  }

  /** A failed call asks again, and the next call succeeds exactly when every live batch is delivered. */
  lemma RetrySucceedsIff(proofs: seq<ProofOfStore>, time: LogicalTime, ops: seq<Op>, content: Content, i: nat)
    requires AllBind(proofs, ops, content) && i + 1 < |ops| && ops[i].Get? && ops[i + 1].Get?
    requires AnswerAt(proofs, time, ops, i).Failed?
    ensures AnswerAt(proofs, time, ops, i + 1).Got? <==> Delivers(proofs, time, ops[i].reader)
  {
    hide Requests, Collect, Meaning;
    assert ops[..i + 1][..i] == ops[..i];
    CollectMeans(proofs, time, ops[i].reader, content);
  }

  // Every answer

  /** A live batch that is not delivered. */
  predicate Missing(proofs: seq<ProofOfStore>, time: LogicalTime, reader: Reader, i: nat) {
    && i < |proofs| && TimeAtMost(time, proofs[i].expiration)
    && !(reader(i).Answered? && reader(i).answer.Ok?)
  }

  function WhyMissing(proofs: seq<ProofOfStore>, time: LogicalTime, reader: Reader, i: nat): FetchError
    requires Missing(proofs, time, reader, i)
  {
    if reader(i).Dropped? then DataNotFound(proofs[i].digest) else reader(i).answer.error
  }

  /** Requests fail with the first live batch that is not delivered. */
  lemma {:induction false} FirstMissing(proofs: seq<ProofOfStore>, time: LogicalTime, reader: Reader) returns (i: nat)
    requires Collect(Requests(proofs, time, reader)).Err?
    ensures Missing(proofs, time, reader, i) && forall j: nat :: j < i ==> !Missing(proofs, time, reader, j)
    ensures Collect(Requests(proofs, time, reader)) == Err(WhyMissing(proofs, time, reader, i))
  {
    var n := |proofs| - 1;
    var before := Requests(proofs[..n], time, reader);
    if TimeAtMost(time, proofs[n].expiration) {
      assert Requests(proofs, time, reader)[..|before|] == before;
    }
    if Collect(before).Err? {
      i := FirstMissing(proofs[..n], time, reader);
      forall j: nat | j < n ensures Missing(proofs[..n], time, reader, j) <==> Missing(proofs, time, reader, j) {
      }
    } else {
      i := n;
      DeliveredAreNotMissing(proofs[..n], time, reader);
      forall j: nat | j < n ensures Missing(proofs[..n], time, reader, j) <==> Missing(proofs, time, reader, j) {
      }
    }
  }

  lemma {:induction false} DeliveredAreNotMissing(proofs: seq<ProofOfStore>, time: LogicalTime, reader: Reader)
    requires Collect(Requests(proofs, time, reader)).Ok?
    ensures forall j: nat :: !Missing(proofs, time, reader, j)
  {
    if proofs != [] {
      var n := |proofs| - 1;
      var before := Requests(proofs[..n], time, reader);
      if TimeAtMost(time, proofs[n].expiration) {
        assert Requests(proofs, time, reader)[..|before|] == before;
      }
      DeliveredAreNotMissing(proofs[..n], time, reader);
      forall j: nat | j < n ensures Missing(proofs[..n], time, reader, j) <==> Missing(proofs, time, reader, j) {
      }
    }
  }

  /** The round of requests that a call awaits: that of the first prefetch, or of the last failed call. */
  function Asked(proofs: seq<ProofOfStore>, time: LogicalTime, ops: seq<Op>): Option<Reader> {
    if ops == [] then None
    else
      var n := |ops| - 1;
      var before := Asked(proofs, time, ops[..n]);
      match ops[n]
      case Prefetch(reader) => if before.None? then Some(reader) else before
      case Get(reader) => if AnswerAt(proofs, time, ops, n).Failed? then Some(reader) else before
  }

  ghost predicate GotBefore(proofs: seq<ProofOfStore>, time: LogicalTime, ops: seq<Op>) {
    exists j: nat :: j < |ops| && ops[j].Get? && AnswerAt(proofs, time, ops, j).Got?
  }

  lemma {:induction false} AskedMeans(proofs: seq<ProofOfStore>, time: LogicalTime, ops: seq<Op>)
    ensures var status, asked := StatusAfter(proofs, time, ops), Asked(proofs, time, ops);
      && (status.None? <==> asked.None?)
      && (GotBefore(proofs, time, ops) <==> status.Some? && status.value.Cached?)
      && (status.Some? && status.value.Requested? ==> status.value.receivers == Requests(proofs, time, asked.value))
  {
    hide Requests, Collect;
    if ops != [] {
      var n := |ops| - 1;
      AskedMeans(proofs, time, ops[..n]);
      forall j: nat | j < n && ops[j].Get?
        ensures AnswerAt(proofs, time, ops[..n], j) == AnswerAt(proofs, time, ops, j)
      {
        assert ops[..n][..j] == ops[..j];
      }
      assert GotBefore(proofs, time, ops)
        <==> GotBefore(proofs, time, ops[..n]) || (ops[n].Get? && AnswerAt(proofs, time, ops, n).Got?) by {
        GotStep(proofs, time, ops);
      }
    }
  }

  lemma GotStep(proofs: seq<ProofOfStore>, time: LogicalTime, ops: seq<Op>)
    requires ops != []
    requires forall j: nat :: j < |ops| - 1 && ops[j].Get? ==>
      AnswerAt(proofs, time, ops[..|ops| - 1], j) == AnswerAt(proofs, time, ops, j)
    ensures var n := |ops| - 1;
      GotBefore(proofs, time, ops)
      <==> GotBefore(proofs, time, ops[..n]) || (ops[n].Get? && AnswerAt(proofs, time, ops, n).Got?)
  {
    hide AnswerAt;
    var n := |ops| - 1;
    if GotBefore(proofs, time, ops[..n]) {
      var j: nat :| j < n && ops[..n][j].Get? && AnswerAt(proofs, time, ops[..n], j).Got?;
      assert ops[j].Get? && AnswerAt(proofs, time, ops, j).Got?;
    }
    if GotBefore(proofs, time, ops) {
      var j: nat :| j < |ops| && ops[j].Get? && AnswerAt(proofs, time, ops, j).Got?;
      assert j < n ==> ops[..n][j].Get? && AnswerAt(proofs, time, ops[..n], j).Got?;
    }
  }

  /** Every call: it panics if nothing was asked for, succeeds exactly if an earlier one did or every live batch
      that was asked for is delivered, and otherwise fails with the first that is not. */
  lemma AnswerIs(proofs: seq<ProofOfStore>, time: LogicalTime, ops: seq<Op>, content: Content, i: nat)
    returns (missing: nat)
    requires AllBind(proofs, ops, content) && i < |ops| && ops[i].Get?
    ensures var a, asked := AnswerAt(proofs, time, ops, i), Asked(proofs, time, ops[..i]);
      if asked.None? then a == Panicked
      else if GotBefore(proofs, time, ops[..i]) then a == Got(Meaning(proofs, time, content))
      else if forall j: nat :: !Missing(proofs, time, asked.value, j) then a == Got(Meaning(proofs, time, content))
      else && Missing(proofs, time, asked.value, missing)
           && (forall j: nat :: j < missing ==> !Missing(proofs, time, asked.value, j))
           && a == Failed(WhyMissing(proofs, time, asked.value, missing))
  {
    hide Requests, Meaning, StatusAfter, Missing;
    var status, asked := StatusAfter(proofs, time, ops[..i]), Asked(proofs, time, ops[..i]);
    missing := 0;
    AskedMeans(proofs, time, ops[..i]);
    FetchRefinesMeaning(proofs, time, ops, content, i);
    if status.Some? && status.value.Requested? {
      if Collect(status.value.receivers).Ok? {
        DeliveredAreNotMissing(proofs, time, asked.value);
      } else {
        missing := FirstMissing(proofs, time, asked.value);
      }
    }
  }
}
