/**
 Downloading one model file over two pipelined range requests: only contiguous bytes reach
 the `.part` file, so that any interruption can be resumed, and only a verified file replaces
 the target.
 */
module Download {
  import opened Common

  type byte = x: int | 0 <= x < 256

  const DOWNLOAD_CONNECTIONS: nat := 2
  const CHUNK: nat := 4 * 1024 * 1024

  /** A range request in flight; `id` numbers the requests of one run. */
  datatype Request = Request(start: nat, length: nat, id: nat)

  /** The requests cover `[from, to)` without gap or overlap. */
  ghost predicate Tiles(pending: seq<Request>, from: nat, to: nat)
  {
    if pending == [] then from == to
    else pending[0].start == from && pending[0].length > 0 && Tiles(pending[1..], from + pending[0].length, to)
  }

  lemma {:induction false} TilesAppend(pending: seq<Request>, from: nat, to: nat, r: Request)
    requires Tiles(pending, from, to) && r.start == to && r.length > 0
    ensures Tiles(pending + [r], from, to + r.length)
    decreases |pending|
  {
    if pending == [] {
      assert (pending + [r])[1..] == [];
    } else {
      TilesAppend(pending[1..], from + pending[0].length, to, r);
      assert (pending + [r])[1..] == pending[1..] + [r];
    }
  }

  lemma {:induction false} TilesOrdered(pending: seq<Request>, from: nat, to: nat)
    requires Tiles(pending, from, to)
    ensures from + |pending| <= to
    ensures forall i :: 0 <= i < |pending| ==> from <= pending[i].start && pending[i].start + pending[i].length <= to
    decreases |pending|
  {
    if pending != [] {
      TilesOrdered(pending[1..], from + pending[0].length, to);
      assert forall i :: 1 <= i < |pending| ==> pending[i] == pending[1..][i - 1];
    }
  }

  /** What the workers bring back: the bytes of a request, or nothing when it fails. */
  type Replies = Request -> Option<seq<byte>>

  /** A reply of the requested length is the committed range. */
  ghost predicate Honest(replies: Replies, whole: seq<byte>)
  {
    forall r: Request :: HonestReply(replies, whole, r)
  }

  ghost predicate HonestReply(replies: Replies, whole: seq<byte>, r: Request)
  {
    r.start + r.length <= |whole| && replies(r).Some? && |replies(r).value| == r.length ==>
      replies(r).value == whole[r.start..r.start + r.length]
  }

  /** Every request is answered in full. */
  ghost predicate Answered(replies: Replies)
  {
    forall r: Request :: AnsweredFully(replies, r)
  }

  ghost predicate AnsweredFully(replies: Replies, r: Request)
  {
    replies(r).Some? && |replies(r).value| == r.length
  }

  /** What may end a run before a chunk or after the last one; a killed process keeps at least what it found on disk. */
  datatype Interruption = Going | Cancelled | Killed(survive: nat)

  // ---------------------------------------------------------------- what a run may do to the files

  datatype Files = Files(part: Option<seq<byte>>, target: Option<seq<byte>>)

  ghost predicate CleanFiles(whole: seq<byte>, f: Files) { f.part.Some? ==> f.part.value <= whole }

  /** Nothing of the partial file is lost. */
  ghost predicate Keeps(s: Files, t: Files)
  {
    s.part.Some? ==> t.part.Some? && s.part.value <= t.part.value
  }

  /** A run from `s` to `t` that finished or did not; `honest` says that its replies were. */
  ghost predicate Ran(whole: seq<byte>, s: Files, t: Files, finished: bool, honest: bool)
  {
    && t.target == (if finished then Some(whole) else s.target)
    && (honest && CleanFiles(whole, s) ==> CleanFiles(whole, t) && (!finished ==> Keeps(s, t)))
  }

  class ModelFile {
    /** The committed content; its hash stands in the manifest. */
    const whole: seq<byte>
    var part: Option<seq<byte>>
    var target: Option<seq<byte>>
    /** The transfer of the current run. */
    var offset: nat
    var requested: nat
    var pending: seq<Request>

    constructor (whole: seq<byte>, part: Option<seq<byte>>, target: Option<seq<byte>>)
      ensures this.whole == whole && this.part == part && this.target == target
    {
      this.whole, this.part, this.target := whole, part, target;
      offset, requested, pending := 0, 0, [];
    }

    ghost function Now(): Files
      reads this
    {
      Files(part, target)
    }

    /** What every earlier honest run leaves behind. */
    ghost predicate Clean()
      reads this
    {
      CleanFiles(whole, Now())
    }

    /** At most two requests in flight, tiling exactly the gap between written and requested bytes. */
    ghost predicate InFlight()
      reads this
    {
      && part.Some? && |part.value| == offset <= requested <= |whole|
      && |pending| <= 2 && Tiles(pending, offset, requested)
    }

    /** Keep both connections busy. */
    method Submit(next: nat) returns (issued: nat)
      requires InFlight()
      modifies this`requested, this`pending
      ensures InFlight() && old(pending) <= pending
      ensures |pending| == 2 || requested == |whole|
      ensures offset < |whole| ==> offset < requested
      ensures forall r :: r in pending ==> r in old(pending) || r.length == MinInt(4194304, |whole| - r.start)
    {
      issued := next;
      while |pending| < DOWNLOAD_CONNECTIONS && requested < |whole|
        invariant InFlight() && old(pending) <= pending
        invariant forall r :: r in pending ==> r in old(pending) || r.length == MinInt(CHUNK, |whole| - r.start)
        decreases |whole| - requested
      {
        var length := MinInt(CHUNK, |whole| - requested);
        var r := Request(requested, length, issued);
        TilesAppend(pending, offset, requested, r);
        pending := pending + [r];
        requested := requested + length;
        issued := issued + 1;
      }
      TilesOrdered(pending, offset, requested);
    }

    /** Append the oldest reply, whose range starts exactly where the file ends. */
    method Receive(replies: Replies) returns (r: Try<()>)
      requires InFlight() && offset < requested
      modifies this
      ensures target == old(target) && InFlight() && old(part.value) <= part.value
      ensures r.Ok? ==> offset > old(offset)
      ensures r.Err? ==> part == old(part) && r.error != "model_file_hash_mismatch"
      ensures old(Clean()) && Honest(replies, whole) ==> Clean()
      ensures Answered(replies) ==> r.Ok?
    {
      var head := pending[0];
      TilesOrdered(pending, offset, requested);
      assert Honest(replies, whole) ==> HonestReply(replies, whole, head);
      assert Answered(replies) ==> AnsweredFully(replies, head);
      var body := replies(head);
      if body == None {
        return Err("request failed");
      }
      if |body.value| != head.length {
        return Err("incomplete_model_chunk");
      }
      pending := pending[1..];
      part := Some(part.value + body.value);
      offset := offset + head.length;
      TilesOrdered(pending, offset, requested);
      return Ok(());
    }

    /** Start from the bytes already on disk; an oversize remainder is deleted. */
    method Resume()
      modifies this
      ensures InFlight() && target == old(target) && pending == [] && requested == offset
      ensures part.value == if old(part).Some? && |old(part).value| <= |whole| then old(part).value else []
    {
      offset := if part.Some? then |part.value| else 0;
      if offset > |whole| {
        part := None;
        offset := 0;
      }
      if part == None {
        part := Some([]);
      }
      pending, requested := [], offset;
    }

    /** The process ends: of what this run appended, some prefix has reached the disk. */
    method Die(found: nat, survive: nat)
      requires InFlight() && found <= offset
      modifies this`part
      ensures part == Some(old(part.value)[..MaxInt(found, MinInt(survive, offset))])
      ensures old(Clean()) ==> Clean()
      ensures forall s :: Keeps(s, old(Now())) && (s.part.Some? ==> |s.part.value| == found) ==> Keeps(s, Now())
    {
      part := Some(part.value[..MaxInt(found, MinInt(survive, offset))]);
    }

    /**
     One run for one file, cut short by cancellation, a full disk, a failed request or the end of the
     process. Whatever the replies were, a finished run has put the committed bytes in place; with
     honest replies the partial file never loses a byte and stays a prefix of the committed file; and
     a run that is answered and left alone finishes.
     */
    method Fetch(replies: Replies, weather: nat -> Interruption, diskFull: bool) returns (r: Try<()>)
      modifies this
      ensures Ran(whole, old(Now()), Now(), r.Ok?, Honest(replies, whole))
      ensures old(Clean()) && Honest(replies, whole) ==> r != Err("model_file_hash_mismatch")
      ensures
        && old(Clean()) && Honest(replies, whole) && Answered(replies)
        && !diskFull && (forall k :: weather(k) == Going)
        ==> r.Ok?
    {
      if target == Some(whole) {
        return Ok(());
      }
      if diskFull {
        if part.Some? && |part.value| > |whole| {
          part := None;
        }
        return Err("insufficient_model_cache_space");
      }
      Resume();
      var turn, issued, found := 0, 0, offset;
      while offset < |whole|
        invariant InFlight() && target == old(target) && found <= offset
        invariant old(Clean()) && Honest(replies, whole) ==>
                    Clean() && Keeps(old(Now()), Now()) && (old(part).Some? ==> found == |old(part).value|)
        decreases |whole| - offset
      {
        match weather(turn) {
          case Going =>
          case Cancelled => return Err("window_closed");
          case Killed(survive) =>
            Die(found, survive);
            return Err("killed");
        }
        issued := Submit(issued);
        var received := Receive(replies);
        if received.Err? {
          return Err(received.error);
        }
        turn := turn + 1;
      }
      var end := weather(turn);
      if end.Killed? {
        Die(found, end.survive);
        return Err("killed");
      }
      if part.value != whole {
        part := None;
        return Err("model_file_hash_mismatch");
      }
      target, part := part, None;
      return Ok(());
    }
  }

  // ---------------------------------------------------------------- any number of runs

  /** A history of one file: the files between its runs, and which runs finished. */
  ghost predicate History(whole: seq<byte>, files: seq<Files>, finished: seq<bool>, honest: bool)
  {
    |files| == |finished| + 1 && forall k :: 0 <= k < |finished| ==>
      Ran(whole, files[k], files[k + 1], finished[k], honest)
  }

  /**
   After any sequence of cancelled, failed, killed and resumed runs with honest replies, the partial
   file is a prefix of the committed one, and between two finished runs it never loses a byte.
   */
  lemma {:induction false} ResumedRunsKeepAPrefix(whole: seq<byte>, files: seq<Files>, finished: seq<bool>, i: nat,
                                                  j: nat)
    requires History(whole, files, finished, true) && CleanFiles(whole, files[0]) && i <= j < |files|
    ensures CleanFiles(whole, files[i]) && CleanFiles(whole, files[j])
    ensures (forall k :: i <= k < j ==> !finished[k]) ==> Keeps(files[i], files[j])
    decreases j
  {
    if i < j {
      ResumedRunsKeepAPrefix(whole, files, finished, i, j - 1);
      assert Ran(whole, files[j - 1], files[j], finished[j - 1], true);
    } else if j > 0 {
      ResumedRunsKeepAPrefix(whole, files, finished, i - 1, j - 1);
      assert Ran(whole, files[j - 1], files[j], finished[j - 1], true);
    }
  }

  /** Once a run has finished the whole file is in place for good, and nothing else ever is, honest replies or not. */
  lemma {:induction false} OnlyTheWholeFileIsPlaced(whole: seq<byte>, files: seq<Files>, finished: seq<bool>,
                                                    honest: bool, j: nat)
    requires History(whole, files, finished, honest) && j < |files|
    ensures files[j].target == if exists k :: 0 <= k < j && finished[k] then Some(whole) else files[0].target
    decreases j
  {
    if j > 0 {
      OnlyTheWholeFileIsPlaced(whole, files, finished, honest, j - 1);
      assert Ran(whole, files[j - 1], files[j], finished[j - 1], honest);
    }
  }
}
