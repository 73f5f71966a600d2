/** The bounded queue in front of the log, and what it hands on. */
module DeferredLog {
  import opened Bytes
  import opened RotatingLog

  type Record = seq<byte>

  function Size(records: seq<Record>): (n: nat) {
    if records == [] then 0 else |records[0]| + Size(records[1..])
  }

  lemma {:induction false} SizeConcat(a: seq<Record>, b: seq<Record>)
    ensures Size(a + b) == Size(a) + Size(b)
    decreases |a|
  {
    if a == [] {
      assert a + b == b;
    } else {
      assert (a + b)[0] == a[0] && (a + b)[1..] == a[1..] + b;
      SizeConcat(a[1..], b);
    }
  }

  /** What is left when records are dropped from the front until the rest fits. */
  function Fit(records: seq<Record>, room: nat): (kept: seq<Record>)
    decreases |records|
  {
    if Size(records) <= room then records else Fit(records[1..], room)
  }

  lemma SizeSuffix(records: seq<Record>, i: nat, j: nat)
    requires i <= j <= |records|
    ensures Size(records[i..]) >= Size(records[j..])
  {
    hide Size;
    assert records[i..] == records[i..j] + records[j..];
    SizeConcat(records[i..j], records[j..]);
  }

  lemma {:induction false} FitAt(records: seq<Record>, room: nat) returns (j: nat)
    ensures j <= |records| && Fit(records, room) == records[j..] && Size(records[j..]) <= room
    ensures j > 0 ==> Size(records[j - 1..]) > room
    decreases |records|
  {
    hide Size;
    SizeOfNothing();
    if Size(records) <= room {
      j := 0;
      assert records[0..] == records;
    } else {
      j := FitAt(records[1..], room);
      assert records[1..][j..] == records[j + 1..];
      assert if j > 0 then records[1..][j - 1..] == records[j..] else records[0..] == records;
      j := j + 1;
    }
  }

  lemma SizeOfNothing()
    ensures Size([]) == 0
  {
  }

  /** It is the longest suffix that fits. */
  lemma FitIsLongest(records: seq<Record>, room: nat, k: nat)
    requires k <= |records|
    ensures var kept := Fit(records, room);
            && |kept| <= |records| && kept == records[|records| - |kept|..] && Size(kept) <= room
            && (Size(records[k..]) <= room <==> |records| - k <= |kept|)
  {
    hide Size, Fit;
    var j := FitAt(records, room);
    if k < j {
      SizeSuffix(records, k, j - 1);
    } else {
      SizeSuffix(records, j, k);
    }
  }

  /** Dropping for a smaller room and then for a larger one is dropping for the smaller one. */
  lemma {:induction false} FitOfFit(records: seq<Record>, room: nat, less: nat)
    requires less <= room
    ensures Fit(Fit(records, room), less) == Fit(records, less)
    decreases |records|
  {
    if Size(records) > room {
      FitOfFit(records[1..], room, less);
    }
  }

  lemma {:induction false} FitSnoc(records: seq<Record>, r: Record, room: nat)
    requires |r| <= room
    ensures Fit(records + [r], room) == Fit(records, room - |r|) + [r]
    decreases |records|
  {
    SizeConcat(records, [r]);
    assert Size([r]) == |r|;
    if Size(records) > room - |r| {
      assert (records + [r])[1..] == records[1..] + [r];
      FitSnoc(records[1..], r, room);
    }
  }

  predicate Accepts(r: Record, capacity: nat) {
    0 < |r| <= capacity
  }

  function Accepted(records: seq<Record>, capacity: nat): (a: seq<Record>)
    decreases |records|
  {
    if records == [] then []
    else (if Accepts(records[0], capacity) then [records[0]] else []) + Accepted(records[1..], capacity)
  }

  /** The queue after one more record, nothing being flushed. */
  function Push(queue: seq<Record>, r: Record, capacity: nat): (q: seq<Record>) {
    if Accepts(r, capacity) then Fit(queue, capacity - |r|) + [r] else queue
  }

  function PushAll(queue: seq<Record>, records: seq<Record>, capacity: nat): (q: seq<Record>)
    decreases |records|
  {
    if records == [] then queue else PushAll(Push(queue, records[0], capacity), records[1..], capacity)
  }

  /** Without a flush the queue is the longest suffix of the accepted records that fits the capacity. */
  lemma {:induction false} QueueIsOptimal(before: seq<Record>, records: seq<Record>, capacity: nat)
    ensures PushAll(Fit(before, capacity), records, capacity) == Fit(before + Accepted(records, capacity), capacity)
    decreases |records|
  {
    if records == [] {
      assert before + [] == before;
    } else {
      var r, rest := records[0], records[1..];
      if Accepts(r, capacity) {
        FitOfFit(before, capacity, capacity - |r|);
        FitSnoc(before, r, capacity);
        QueueIsOptimal(before + [r], rest, capacity);
        Assoc(before, [r], Accepted(rest, capacity));
      } else {
        QueueIsOptimal(before, rest, capacity);
        assert [] + Accepted(rest, capacity) == Accepted(rest, capacity);
      }
    }
  }

  // ---- order -------------------------------------------------------------------------------

  /** `s` is what is left of `all` after some of its elements were taken out. */
  predicate Subsequence(s: seq<Record>, all: seq<Record>)
    decreases |all|
  {
    if all == [] then s == []
    else Subsequence(s, all[1..]) || (s != [] && s[0] == all[0] && Subsequence(s[1..], all[1..]))
  }

  lemma {:induction false} SubsequenceSnoc(s: seq<Record>, all: seq<Record>, r: Record)
    requires Subsequence(s, all)
    ensures Subsequence(s + [r], all + [r])
    decreases |all|
  {
    if all == [] {
      assert [r][1..] == [];
    } else {
      assert (all + [r])[0] == all[0] && (all + [r])[1..] == all[1..] + [r];
      if Subsequence(s, all[1..]) {
        SubsequenceSnoc(s, all[1..], r);
      } else {
        SubsequenceSnoc(s[1..], all[1..], r);
        assert (s + [r])[1..] == s[1..] + [r];
      }
    }
  }

  /** Taking one more element out of the middle. */
  lemma {:induction false} SubsequenceWithout(a: seq<Record>, b: seq<Record>, all: seq<Record>)
    requires b != [] && Subsequence(a + b, all)
    ensures Subsequence(a + b[1..], all)
    decreases |all|
  {
    var s := a + b;
    assert all != [];
    if Subsequence(s, all[1..]) {
      SubsequenceWithout(a, b, all[1..]);
    } else if a == [] {
      assert s[1..] == b[1..] && a + b[1..] == b[1..];
    } else {
      assert s[1..] == a[1..] + b && (a + b[1..])[1..] == a[1..] + b[1..];
      SubsequenceWithout(a[1..], b, all[1..]);
    }
  }

  // ---- what a record leaves in the log ---------------------------------------------------------

  /**
    An interrupted write is tried again with the whole record, and what it had accepted stays: each
    attempt leaves a prefix. `ns` are the bytes accepted by the attempts at one record.
  */
  ghost function Parts(r: Record, ns: seq<nat>): (s: seq<byte>)
    requires forall k :: 0 <= k < |ns| ==> ns[k] <= |r|
  {
    if ns == [] then [] else r[..ns[0]] + Parts(r, ns[1..])
  }

  predicate Tried(records: seq<Record>, tries: seq<seq<nat>>) {
    |tries| == |records| && forall i, k :: 0 <= i < |records| && 0 <= k < |tries[i]| ==> tries[i][k] <= |records[i]|
  }

  ghost function Gains(records: seq<Record>, tries: seq<seq<nat>>): (s: seq<byte>)
    requires Tried(records, tries)
    decreases |records|
  {
    if records == [] then [] else Parts(records[0], tries[0]) + Gains(records[1..], tries[1..])
  }

  /** The last attempt took the whole record. */
  predicate Finished(r: Record, ns: seq<nat>) {
    ns != [] && ns[|ns| - 1] == |r|
  }

  /** And no attempt before it had taken any of it. */
  predicate Clean(r: Record, ns: seq<nat>) {
    Finished(r, ns) && forall k :: 0 <= k < |ns| - 1 ==> ns[k] == 0
  }

  predicate AllFinished(records: seq<Record>, tries: seq<seq<nat>>)
    requires |tries| == |records|
  {
    forall i :: 0 <= i < |records| ==> Finished(records[i], tries[i])
  }

  predicate AllClean(records: seq<Record>, tries: seq<seq<nat>>)
    requires |tries| == |records|
  {
    forall i :: 0 <= i < |records| ==> Clean(records[i], tries[i])
  }

  lemma {:induction false} PartsSnoc(r: Record, ns: seq<nat>, n: nat)
    requires n <= |r| && forall k :: 0 <= k < |ns| ==> ns[k] <= |r|
    ensures Parts(r, ns + [n]) == Parts(r, ns) + r[..n]
    decreases |ns|
  {
    if ns == [] {
      assert ([] + [n])[1..] == [] && Parts(r, [n]) == r[..n] + [];
    } else {
      assert (ns + [n])[0] == ns[0] && (ns + [n])[1..] == ns[1..] + [n];
      PartsSnoc(r, ns[1..], n);
    }
  }

  lemma {:induction false} GainsConcat(a: seq<Record>, ta: seq<seq<nat>>, b: seq<Record>, tb: seq<seq<nat>>)
    requires Tried(a, ta) && Tried(b, tb)
    ensures Tried(a + b, ta + tb) && Gains(a + b, ta + tb) == Gains(a, ta) + Gains(b, tb)
    decreases |a|
  {
    if a == [] {
      assert a + b == b && ta + tb == tb;
    } else {
      assert (a + b)[0] == a[0] && (a + b)[1..] == a[1..] + b;
      assert (ta + tb)[0] == ta[0] && (ta + tb)[1..] == ta[1..] + tb;
      GainsConcat(a[1..], ta[1..], b, tb);
      Assoc(Parts(a[0], ta[0]), Gains(a[1..], ta[1..]), Gains(b, tb));
    }
  }

  lemma {:induction false} PartsExactly(r: Record, ns: seq<nat>)
    requires Finished(r, ns) && forall k :: 0 <= k < |ns| ==> ns[k] <= |r|
    ensures |Parts(r, ns)| >= |r|
    ensures Clean(r, ns) ==> Parts(r, ns) == r
    ensures !Clean(r, ns) ==> |Parts(r, ns)| > |r|
    decreases |ns|
  {
    if |ns| == 1 {
      assert ns[1..] == [] && r[..|r|] + [] == r;
    } else {
      PartsExactly(r, ns[1..]);
      assert ns[0] == 0 ==> r[..0] + Parts(r, ns[1..]) == Parts(r, ns[1..]);
      assert forall k :: 0 <= k < |ns| - 2 ==> ns[1..][k] == ns[k + 1];
      assert Clean(r, ns) <==> ns[0] == 0 && Clean(r, ns[1..]) by { CleanTail(r, ns); }
    }
  }

  lemma CleanTail(r: Record, ns: seq<nat>)
    requires |ns| > 1
    ensures Clean(r, ns) <==> ns[0] == 0 && Clean(r, ns[1..])
  {
    var tail := ns[1..];
    assert forall k :: 0 <= k < |tail| ==> tail[k] == ns[k + 1];
    assert forall k :: 1 <= k < |ns| ==> ns[k] == tail[k - 1];
  }

  lemma {:induction false} GainsAtLeast(records: seq<Record>, tries: seq<seq<nat>>)
    requires Tried(records, tries) && AllFinished(records, tries)
    ensures |Gains(records, tries)| >= |Flatten(records)|
    ensures AllClean(records, tries) ==> Gains(records, tries) == Flatten(records)
    ensures !AllClean(records, tries) ==> |Gains(records, tries)| > |Flatten(records)|
    decreases |records|
  {
    if records != [] {
      PartsExactly(records[0], tries[0]);
      GainsAtLeast(records[1..], tries[1..]);
      if AllClean(records[1..], tries[1..]) && Clean(records[0], tries[0]) {
        forall i | 0 <= i < |records| ensures Clean(records[i], tries[i]) {
          assert i > 0 ==> records[i] == records[1..][i - 1] && tries[i] == tries[1..][i - 1];
        }
      }
    }
  }

  /** Once all are written, each is logged exactly once if and only if no interrupted attempt had taken any of it. */
  lemma OnceExactly(records: seq<Record>, tries: seq<seq<nat>>)
    requires Tried(records, tries) && AllFinished(records, tries)
    ensures Gains(records, tries) == Flatten(records) <==> AllClean(records, tries)
  {
    hide Gains, Flatten, AllClean;
    GainsAtLeast(records, tries);
  }

  lemma GainsNothing()
    ensures Tried([], []) && Gains([], []) == []
  {
  }

  lemma PartsNothing(r: Record)
    ensures Parts(r, []) == []
  {
  }

  lemma GainsOne(records: seq<Record>, tries: seq<seq<nat>>, r: Record, ns: seq<nat>)
    requires Tried(records, tries) && forall k :: 0 <= k < |ns| ==> ns[k] <= |r|
    ensures Tried(records + [r], tries + [ns])
    ensures Gains(records + [r], tries + [ns]) == Gains(records, tries) + Parts(r, ns)
  {
    assert Tried([r], [ns]);
    GainsConcat(records, tries, [r], [ns]);
    assert [r][1..] == [] && [ns][1..] == [];
    assert Gains([r], [ns]) == Parts(r, ns) + [];
  }

  lemma CleanIsOnce(records: seq<Record>, tries: seq<seq<nat>>)
    requires Tried(records, tries)
    ensures AllClean(records, tries) ==> Gains(records, tries) == Flatten(records)
  {
    if AllClean(records, tries) {
      GainsAtLeast(records, tries);
    }
  }

  /** For each record the outcomes of the writes of each attempt; the first attempts meet no obstacle. */
  predicate Smooth(fates: seq<seq<seq<Grant>>>) {
    forall i :: 0 <= i < |fates| && fates[i] != [] ==> Positive(fates[i][0])
  }

  class DeferredLog {
    var records: seq<Record>
    var bytes: nat
    var sinkOpenAttempted: bool
    var sink: RotatingLog?
    const printLogs: bool
    const capacity: nat
    /** Records accepted since the queue was last drained, all records accepted, all handed on. */
    ghost var accepted: seq<Record>
    ghost var seen: seq<Record>
    ghost var sent: seq<Record>
    /** What the sink held when it was opened, and what the attempts at each record sent were accepted for. */
    ghost var base: seq<byte>
    ghost var tries: seq<seq<nat>>

    ghost predicate Valid()
      reads this, sink
    {
      && bytes == Size(records) <= capacity
      && records == Fit(accepted, capacity)
      && Subsequence(sent + records, seen)
      && (sink == null ==> sent == [])
      && (!sinkOpenAttempted ==> sink == null)
      && Tried(sent, tries)
      && (sink != null ==> sink.Valid() && Written(sink.cut) == base + Gains(sent, tries))
    }

    constructor (printLogs: bool, capacity: nat)
      ensures Valid() && records == [] && seen == [] && sink == null && !sinkOpenAttempted
      ensures this.printLogs == printLogs && this.capacity == capacity
    {
      this.printLogs, this.capacity := printLogs, capacity;
      records, bytes, sinkOpenAttempted, sink := [], 0, false, null;
      accepted, seen, sent, base, tries := [], [], [], [], [];
    }

    /** Makes room at the front and appends; refuses empty and oversized records. */
    method Enqueue(r: Record)
      requires Valid()
      modifies `records, `bytes, `accepted, `seen
      ensures Valid() && records == Push(old(records), r, capacity)
      ensures seen == if Accepts(r, capacity) then old(seen) + [r] else old(seen)
    {
      hide Subsequence;
      if r == [] || |r| > capacity {
        return;
      }
      while bytes + |r| > capacity && records != []
        invariant bytes == Size(records) && Fit(records, capacity - |r|) == Fit(old(records), capacity - |r|)
        invariant Subsequence(sent + records, seen)
        modifies `records, `bytes
        decreases |records|
      {
        SubsequenceWithout(sent, records, seen);
        var removed := records[0];
        records := records[1..];
        bytes := bytes - |removed|;
      }
      SizeConcat(records, [r]);
      FitOfFit(accepted, capacity, capacity - |r|);
      FitSnoc(accepted, r, capacity);
      SubsequenceSnoc(sent + records, seen, r);
      Assoc(sent, records, [r]);
      bytes := bytes + |r|;
      records := records + [r];
      accepted := accepted + [r];
      seen := seen + [r];
    }

    /** Takes the sink it gets, if any; there is only one attempt. */
    method Open(opening: RotatingLog?)
      requires Valid() && !sinkOpenAttempted && (opening != null ==> opening.Valid())
      modifies `sinkOpenAttempted, `sink, `base
      ensures Valid() && sinkOpenAttempted && sink == opening
      ensures base == if opening != null then Written(opening.cut) else old(base)
    {
      hide Subsequence, Fit, Size, CutOf, Files, Flatten;
      sinkOpenAttempted := true;
      sink := opening;
      if sink != null {
        base := Written(sink.cut);
        GainsNothing();
        assert sent == [] && tries == [] && base + [] == base;
      }
    }

    /** Hands every queued record on, in order; one whose write fails for good is passed over. */
    method Flush(fates: seq<seq<seq<Grant>>>)
      requires Valid()
      modifies `records, `bytes, `accepted, `sent, `tries, sink
      ensures Valid()
      ensures sink == null ==> records == old(records) && sent == old(sent) && tries == old(tries)
      ensures sink != null ==> records == [] && sent == old(sent) + old(records) && old(tries) <= tries
      ensures old(AllClean(sent, tries)) && Smooth(fates) ==> AllClean(sent, tries)
    {
      hide Subsequence, Flatten, CutOf, Files, Gains, Clean, Smooth, Positive;
      if sink == null {
        return;
      }
      var drained := records;
      ghost var more := WriteAll(drained, fates);
      GainsConcat(sent, tries, drained, more);
      Assoc(base, Gains(sent, tries), Gains(drained, more));
      sent, tries := sent + drained, tries + more;
      assert sent + [] == sent;
      records, bytes, accepted := [], 0, [];
    }

    /** The loop of a flush. */
    method WriteAll(drained: seq<Record>, fates: seq<seq<seq<Grant>>>) returns (ghost more: seq<seq<nat>>)
      requires sink != null && sink.Valid()
      modifies sink
      ensures sink.Valid() && Tried(drained, more)
      ensures Written(sink.cut) == old(Written(sink.cut)) + Gains(drained, more)
      ensures Smooth(fates) ==> AllClean(drained, more)
    {
      hide CutOf, Files, Gains, Clean, Positive;
      ghost var before := Written(sink.cut);
      var i := 0;
      more := [];
      GainsNothing();
      assert before + [] == before && drained[..0] == [];
      while i < |drained|
        invariant i <= |drained| && sink.Valid() && Tried(drained[..i], more)
        invariant Written(sink.cut) == before + Gains(drained[..i], more)
        invariant Smooth(fates) ==> AllClean(drained[..i], more)
      {
        ghost var ns := WriteRecord(drained[i], if i < |fates| then fates[i] else []);
        GainsOne(drained[..i], more, drained[i], ns);
        Assoc(before, Gains(drained[..i], more), Parts(drained[i], ns));
        assert drained[..i] + [drained[i]] == drained[..i + 1];
        more := more + [ns];
        i := i + 1;
      }
      assert drained[..i] == drained;
    }

    /** Writes one record whole, and once more from its start for as long as it is interrupted. */
    method WriteRecord(r: Record, fates: seq<seq<Grant>>) returns (ghost ns: seq<nat>)
      requires sink != null && sink.Valid()
      modifies sink
      ensures sink.Valid() && forall k :: 0 <= k < |ns| ==> ns[k] <= |r|
      ensures Written(sink.cut) == old(Written(sink.cut)) + Parts(r, ns)
      ensures (fates == [] || Positive(fates[0])) ==> Clean(r, ns)
    {
      hide Flatten, CutOf, Files, Parts, Written;
      ghost var before := Written(sink.cut);
      var turn := 0;
      ns := [];
      PartsNothing(r);
      assert before + [] == before;
      while true
        invariant sink.Valid() && turn == |ns| <= |fates| && forall k :: 0 <= k < |ns| ==> ns[k] <= |r|
        invariant Written(sink.cut) == before + Parts(r, ns)
        invariant turn > 0 ==> fates != [] && !Positive(fates[0])
        decreases |fates| - turn
      {
        var result;
        ghost var n;
        result, n := sink.Write(r, if turn < |fates| then fates[turn] else []);
        PartsSnoc(r, ns, n);
        Assoc(before, Parts(r, ns), r[..n]);
        ns := ns + [n];
        if result.Wrote? || !result.interrupted {
          return;
        }
        turn := turn + 1;
      }
    }

    /** `painted`: the first frame is out; `opening`: the sink this call gets if it is the one to open it. */
    method PushRecord(r: Record, painted: bool, opening: RotatingLog?, fates: seq<seq<seq<Grant>>>)
      requires Valid() && (opening != null ==> opening.Valid())
      modifies this, sink, opening
      ensures Valid()
      ensures seen == if 0 < |r| <= capacity then old(seen) + [r] else old(seen)
      ensures var opens := Accepts(r, capacity) && !printLogs && painted && !old(sinkOpenAttempted);
              && sink == (if opens then opening else old(sink))
              && sinkOpenAttempted == (old(sinkOpenAttempted) || opens)
      ensures var queue := Push(old(records), r, capacity);
              if Accepts(r, capacity) && !printLogs && painted && sink != null
              then records == [] && sent == old(sent) + queue
              else records == queue && sent == old(sent)
      ensures base == if old(sink) == null && sink != null then old(Written(opening.cut)) else old(base)
      ensures sink != null ==> Written(sink.cut) == base + Gains(sent, tries)
      ensures old(AllClean(sent, tries)) && Smooth(fates) ==> AllClean(sent, tries)
      ensures sink != null && AllClean(sent, tries) ==> Written(sink.cut) == base + Flatten(sent)
    {
      hide AllClean, Smooth, Tried, Written, Flatten, Gains, Subsequence, Fit, Size;
      if r == [] || |r| > capacity {
        CleanIsOnce(sent, tries);
        return;
      }
      Enqueue(r);
      if !printLogs && painted && !sinkOpenAttempted {
        Open(opening);
      }
      if !printLogs && painted {
        Flush(fates);
      }
      CleanIsOnce(sent, tries);
    }
  }
}
