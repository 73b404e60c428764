/** One iteration of the inference worker over its three queues, modelled as
    sequences, and traces of iterations interleaved with frames arriving from
    the producer. The cancellation flag, the busy-wait and thread safety of the
    queues are not part of this model. */
module Worker {
  import opened Wrappers
  import opened Image
  import opened Subsequence

  /** Spatial size of the network input. */
  const InputWidth: nat := 300
  const InputHeight: nat := 300

  /** The network input built from a frame: resized to the input size without
      cropping, unit scale, zero mean, red and blue channels swapped. */
  datatype Blob = Blob(source: Frame, width: nat, height: nat, scale: real, mean: real, swapRB: bool, crop: bool)

  function MakeBlob(f: Frame): Blob {
    Blob(f, InputWidth, InputHeight, 1.0, 0.0, true, false)
  }

  /** Raw detector output: one flat float buffer per output layer. */
  type Outputs = seq<seq<real>>

  datatype Queues = Queues(frames: seq<Frame>, predictions: seq<Outputs>, processed: seq<Frame>)

  const Idle: Queues := Queues([], [], [])

  /** The frame `get()` hands out. Which element the queue yields is up to its
      implementation; `pick` selects it, and every element is reachable. */
  function Take(frames: seq<Frame>, pick: nat): (r: Option<Frame>)
    ensures r.None? <==> |frames| == 0
    ensures r.Some? ==> r.value in frames
  {
    if |frames| == 0 then None else Some(frames[pick % |frames|])
  }

  /** One pass of the worker loop. `forward` stands for the network's forward pass. */
  function Iterate(q: Queues, pick: nat, forward: Blob -> Outputs): (r: Queues)
    ensures |q.frames| == 0 ==> r == q
    ensures |q.frames| > 0 ==> r.frames == []
    ensures q.processed <= r.processed && q.predictions <= r.predictions
    ensures |r.processed| - |q.processed| == |r.predictions| - |q.predictions| <= 1
    ensures |r.processed| > |q.processed| ==>
              var f := r.processed[|q.processed|];
              f in q.frames && !IsEmpty(f) && r.predictions[|q.predictions|] == forward(MakeBlob(f))
    ensures (|q.frames| > 0 && forall i :: 0 <= i < |q.frames| ==> !IsEmpty(q.frames[i]))
              ==> |r.processed| == |q.processed| + 1
    ensures var t := Take(q.frames, pick);
            t.Some? ==> (|r.processed| == |q.processed| + 1 <==> !IsEmpty(t.value))
    ensures var t := Take(q.frames, pick);
            |r.processed| > |q.processed| ==> t.Some? && r.processed[|q.processed|] == t.value
  {
    match Take(q.frames, pick)
    case None => q
    case Some(f) =>
      if IsEmpty(f) then q.(frames := [])
      else Queues([], q.predictions + [forward(MakeBlob(f))], q.processed + [f])
  }

  /** Every pushed prediction is the forward pass of the frame pushed with it,
      and no empty frame is ever pushed. */
  ghost predicate Paired(q: Queues, forward: Blob -> Outputs) {
    && |q.predictions| == |q.processed|
    && forall i :: 0 <= i < |q.processed| ==> !IsEmpty(q.processed[i]) && q.predictions[i] == forward(MakeBlob(q.processed[i]))
  }

  lemma IteratePreservesPairing(q: Queues, pick: nat, forward: Blob -> Outputs)
    requires Paired(q, forward)
    ensures Paired(Iterate(q, pick, forward), forward)
  {
  }

  /** What can happen between two reads of the stop flag, seen sequentially:
      the producer enqueues a frame, or the worker runs one iteration. */
  datatype Event = Produce(frame: Frame) | Iteration(pick: nat)

  function Apply(q: Queues, e: Event, forward: Blob -> Outputs): Queues {
    match e
    case Produce(f) => q.(frames := q.frames + [f])
    case Iteration(pick) => Iterate(q, pick, forward)
  }

  function Run(q: Queues, events: seq<Event>, forward: Blob -> Outputs): Queues
    decreases |events|
  {
    if |events| == 0 then q else Run(Apply(q, events[0], forward), events[1..], forward)
  }

  /** The frame an event enqueues, if any. */
  function Arrived(e: Event): seq<Frame> {
    match e
    case Produce(f) => [f]
    case Iteration(_) => []
  }

  /** The frames the producer enqueued, in order. */
  function Produced(events: seq<Event>): (fs: seq<Frame>)
    ensures |fs| <= |events|
  {
    if |events| == 0 then [] else Arrived(events[0]) + Produced(events[1..])
  }

  lemma {:induction false} RunPreservesPairing(q: Queues, events: seq<Event>, forward: Blob -> Outputs)
    requires Paired(q, forward)
    ensures Paired(Run(q, events, forward), forward)
    decreases |events|
  {
    if |events| > 0 {
      var q' := Apply(q, events[0], forward);
      if events[0].Iteration? {
        IteratePreservesPairing(q, events[0].pick, forward);
      }
      RunPreservesPairing(q', events[1..], forward);
    }
  }

  /** The processed frames followed by the still-queued ones appear, in order, among the produced frames. */
  ghost predicate InOrder(q: Queues, history: seq<Frame>) {
    IsSubseq(q.processed + q.frames, history)
  }

  lemma ApplyKeepsOrder(q: Queues, e: Event, history: seq<Frame>, forward: Blob -> Outputs)
    requires InOrder(q, history)
    ensures InOrder(Apply(q, e, forward), history + Arrived(e))
  {
    var r := Apply(q, e, forward);
    match e
    case Produce(f) =>
      assert r.processed + r.frames == (q.processed + q.frames) + [f];
      SubseqConcat(q.processed + q.frames, history, [f], [f]);
    case Iteration(pick) =>
      assert history + Arrived(e) == history;
      if |q.frames| > 0 {
        var k := pick % |q.frames|;
        SubseqRefl(q.processed);
        if IsEmpty(q.frames[k]) {
          assert r.processed + r.frames == q.processed + [];
          SubseqConcat(q.processed, q.processed, [], q.frames);
        } else {
          assert r.processed + r.frames == q.processed + [q.frames[k]];
          SubseqElement(q.frames, k);
          SubseqConcat(q.processed, q.processed, [q.frames[k]], q.frames);
        }
        SubseqTrans(r.processed + r.frames, q.processed + q.frames, history);
      }
  }

  lemma {:induction false} RunKeepsOrder(q: Queues, events: seq<Event>, history: seq<Frame>, forward: Blob -> Outputs)
    requires InOrder(q, history)
    ensures InOrder(Run(q, events, forward), history + Produced(events))
    decreases |events|
  {
    if |events| == 0 {
      assert Produced(events) == [];
      assert history + Produced(events) == history;
    } else {
      var e := events[0];
      var q' := Apply(q, e, forward);
      var h' := history + Arrived(e);
      ApplyKeepsOrder(q, e, history, forward);
      RunKeepsOrder(q', events[1..], h', forward);
      var r := Run(q, events, forward);
      assert r == Run(q', events[1..], forward);
      var rest := Produced(events[1..]);
      assert Produced(events) == Arrived(e) + rest;
      assert h' + rest == history + (Arrived(e) + rest);
    }
  }

  /** Frames can be skipped but never reordered: from idle queues, the frames
      the worker pushes downstream are an in-order subsequence of the frames
      the producer enqueued, each paired with its own forward pass. */
  lemma SkippedNeverReordered(events: seq<Event>, forward: Blob -> Outputs)
    ensures IsSubseq(Run(Idle, events, forward).processed, Produced(events))
    ensures Paired(Run(Idle, events, forward), forward)
  {
    var r := Run(Idle, events, forward);
    assert Idle.processed + Idle.frames == [];
    RunKeepsOrder(Idle, events, [], forward);
    assert [] + Produced(events) == Produced(events);
    SubseqRefl(r.processed);
    SubseqConcat(r.processed, r.processed, [], r.frames);
    assert r.processed + [] == r.processed;
    SubseqTrans(r.processed, r.processed + r.frames, Produced(events));
    RunPreservesPairing(Idle, events, forward);
  }

  /** Only the frame `get()` returns matters: an empty one is dropped together
      with the backlog even when non-empty frames were queued behind it. */
  lemma EmptyTakenFrameSkipsIteration(forward: Blob -> Outputs)
    ensures var r := Iterate(Queues([Frame(1, 0, 0), Frame(2, 10, 10)], [], []), 0, forward);
            r == Idle
  {
  }

  /** Latest-frame-wins backlog policy: with five frames queued, one iteration
      runs the model on exactly one of them and leaves none queued. */
  lemma BacklogOfFive(fs: seq<Frame>, pick: nat, forward: Blob -> Outputs)
    requires |fs| == 5 && forall i :: 0 <= i < 5 ==> !IsEmpty(fs[i])
    ensures var r := Iterate(Queues(fs, [], []), pick, forward);
            |r.frames| == 0 && |r.predictions| == 1 && |r.processed| == 1 && r.processed[0] in fs
  {
  }
}
