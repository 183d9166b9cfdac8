/**
 The private batch of a window: the drawn videos, with intrinsically invalid media replaced
 from a reserve in a fixed order, prepared across any number of interruptions and locked once.
 */
module Pool {
  import opened Common

  type Video = string

  /** What one pass of the preparation reports: clips of `ready` videos exist, media of `invalid` ones never will. */
  datatype Build = Crashed | Reported(invalid: set<Video>, ready: set<Video>)

  predicate Distinct(s: seq<Video>) { forall i, j :: 0 <= i < j < |s| ==> s[i] != s[j] }

  function Members(s: seq<Video>): set<Video> { set v | v in s }

  /** Videos of `s` outside `bad`, in order. */
  function Sound(s: seq<Video>, bad: set<Video>): (r: seq<Video>)
    ensures forall v :: v in r <==> v in s && v !in bad
  {
    if s == [] then []
    else
      var front, last := Sound(s[..|s| - 1], bad), s[|s| - 1];
      if last in bad then front else front + [last]
  }

  /** The batch every history must arrive at: sound draws, then the first sound reserves in their order. */
  function Target(initial: seq<Video>, reserve: seq<Video>, bad: set<Video>): set<Video>
    requires |Members(initial) * bad| <= |Sound(reserve, bad)|
  {
    (Members(initial) - bad) + Members(Sound(reserve, bad)[..|Members(initial) * bad|])
  }

  predicate Suffices(initial: seq<Video>, reserve: seq<Video>, bad: set<Video>)
  {
    |Members(initial) * bad| <= |Sound(reserve, bad)|
  }

  // ---------------------------------------------------------------- counting

  lemma {:induction false} MembersCount(s: seq<Video>)
    requires Distinct(s)
    ensures |Members(s)| == |s|
    decreases |s|
  {
    if s == [] {
      assert Members(s) == {};
    } else {
      var n := |s| - 1;
      MembersCount(s[..n]);
      assert s == s[..n] + [s[n]];
      assert Members(s) == Members(s[..n]) + {s[n]};
      assert s[n] !in s[..n];
    }
  }

  lemma {:induction false} SoundDistinct(s: seq<Video>, bad: set<Video>)
    requires Distinct(s)
    ensures Distinct(Sound(s, bad))
    decreases |s|
  {
    if s != [] {
      var n := |s| - 1;
      SoundDistinct(s[..n], bad);
      assert s[n] !in s[..n];
    }
  }

  /** A set that contains every element before one of its own is a prefix. */
  lemma {:induction false} ClosedIsPrefix(s: seq<Video>, taken: set<Video>)
    requires Distinct(s) && taken <= Members(s)
    requires forall i, j :: 0 <= i < j < |s| && s[j] in taken ==> s[i] in taken
    ensures |taken| <= |s| && taken == Members(s[..|taken|])
    decreases |s|
  {
    if s == [] {
      assert taken == {};
    } else {
      var n := |s| - 1;
      assert s == s[..n] + [s[n]];
      if s[n] in taken {
        assert taken == Members(s);
        MembersCount(s);
        assert s[..|taken|] == s;
      } else {
        forall v | v in taken
          ensures v in Members(s[..n])
        {
          assert v in s;
        }
        ClosedIsPrefix(s[..n], taken);
        assert s[..n][..|taken|] == s[..|taken|];
      }
    }
  }

  // ---------------------------------------------------------------- the replacement loop

  /** A selection on its way: sound draws keep their place, reserves are taken in order. */
  ghost predicate Underway(initial: seq<Video>, reserve: seq<Video>, rejected: set<Video>, selected: seq<Video>)
  {
    && |selected| == |initial| && Distinct(selected)
    && (forall i :: 0 <= i < |initial| && initial[i] !in rejected ==> selected[i] == initial[i])
    && (forall i :: 0 <= i < |initial| ==> selected[i] == initial[i] || selected[i] in reserve)
    && InReserveOrder(reserve, rejected, selected)
  }

  ghost predicate InReserveOrder(reserve: seq<Video>, rejected: set<Video>, selected: seq<Video>)
  {
    forall i, j :: 0 <= i < j < |reserve| && reserve[j] in selected ==> reserve[i] in selected || reserve[i] in rejected
  }

  function Available(reserve: seq<Video>, rejected: set<Video>, selected: seq<Video>): (r: seq<Video>)
    ensures forall v :: v in r <==> v in reserve && v !in rejected && v !in selected
  {
    if reserve == [] then []
    else
      var front, last := Available(reserve[..|reserve| - 1], rejected, selected), reserve[|reserve| - 1];
      if last in rejected || last in selected then front else front + [last]
  }

  /** Everything in the reserve before the first available video is taken or rejected. */
  lemma {:induction false} FirstAvailable(reserve: seq<Video>, rejected: set<Video>, selected: seq<Video>, j: nat)
    requires Distinct(reserve) && j < |reserve| && Available(reserve, rejected, selected) != []
    requires Available(reserve, rejected, selected)[0] == reserve[j]
    ensures forall i :: 0 <= i < j ==> reserve[i] in selected || reserve[i] in rejected
    decreases |reserve|
  {
    var n := |reserve| - 1;
    var front := Available(reserve[..n], rejected, selected);
    if front == [] {
      forall i | 0 <= i < j
        ensures reserve[i] in selected || reserve[i] in rejected
      {
        assert reserve[i] == reserve[..n][i] && reserve[i] in reserve[..n];
        assert reserve[i] !in front;
      }
    } else {
      assert front[0] in reserve[..n];
      FirstAvailable(reserve[..n], rejected, selected, j);
      assert forall i :: 0 <= i < n ==> reserve[..n][i] == reserve[i];
    }
  }

  /** Taking the first available video leaves the others available, in the same order. */
  lemma {:induction false} RestAvailable(reserve: seq<Video>, rejected: set<Video>, selected: seq<Video>, i: nat)
    requires Distinct(reserve) && i < |selected| && selected[i] in rejected
      && Available(reserve, rejected, selected) != []
    ensures var all := Available(reserve, rejected, selected);
      Available(reserve, rejected, selected[i := all[0]]) == all[1..]
    decreases |reserve|
  {
    var n := |reserve| - 1;
    var front, all := Available(reserve[..n], rejected, selected), Available(reserve, rejected, selected);
    var next := selected[i := all[0]];
    assert next[i] == all[0];
    SameTaken(rejected, selected, i, all[0]);
    if front == [] {
      assert all == [reserve[n]];
      var rest := Available(reserve, rejected, next);
      HasMember(rest);
    } else {
      RestAvailable(reserve[..n], rejected, selected, i);
      assert front[0] in reserve[..n] && front[0] != reserve[n];
    }
  }

  lemma HasMember(s: seq<Video>)
    ensures s != [] ==> exists v :: v in s
  {
    if s != [] {
      assert s[0] in s;
    }
  }

  lemma SameTaken(rejected: set<Video>, selected: seq<Video>, i: nat, x: Video)
    requires i < |selected| && selected[i] in rejected
    ensures forall v :: v in selected[i := x] || v in rejected <==> v == x || v in selected || v in rejected
  {
    var next := selected[i := x];
    assert next[i] == x;
    forall v | v in selected && v !in rejected
      ensures v in next
    {
      var k :| 0 <= k < |selected| && selected[k] == v;
      assert next[k] == v;
    }
    forall v | v in next
      ensures v == x || v in selected
    {
      var k :| 0 <= k < |next| && next[k] == v;
    }
  }

  lemma ReplaceOne(initial: seq<Video>, reserve: seq<Video>, rejected: set<Video>, selected: seq<Video>, i: nat)
    requires Distinct(reserve) && Underway(initial, reserve, rejected, selected)
    requires i < |selected| && selected[i] in rejected && Available(reserve, rejected, selected) != []
    ensures Underway(initial, reserve, rejected, selected[i := Available(reserve, rejected, selected)[0]])
  {
    var x := Available(reserve, rejected, selected)[0];
    assert x in Available(reserve, rejected, selected);
    var next := selected[i := x];
    var j :| 0 <= j < |reserve| && reserve[j] == x;
    FirstAvailable(reserve, rejected, selected, j);
    SameTaken(rejected, selected, i, x);
    hide Available;
    assert Distinct(next) by { assert forall k :: 0 <= k < |selected| ==> selected[k] in selected; }
    forall a, b | 0 <= a < b < |reserve| && reserve[b] in next
      ensures reserve[a] in next || reserve[a] in rejected
    {
      if b != j {
        assert reserve[b] in selected;
      }
    }
  }

  // ---------------------------------------------------------------- where the loop ends

  lemma {:induction false} SoundOrder(s: seq<Video>, bad: set<Video>, i: nat, j: nat) returns (a: nat, b: nat)
    requires i < j < |Sound(s, bad)|
    ensures a < b < |s| && s[a] == Sound(s, bad)[i] && s[b] == Sound(s, bad)[j]
    decreases |s|
  {
    var n := |s| - 1;
    var front := Sound(s[..n], bad);
    if j < |front| {
      a, b := SoundOrder(s[..n], bad, i, j);
    } else {
      b := n;
      assert front[i] in front;
      a :| 0 <= a < n && s[..n][a] == front[i];
    }
  }

  lemma Split(a: set<Video>, bad: set<Video>)
    ensures |a * bad| + |a - bad| == |a|
  {
    assert a == a * bad + (a - bad);
  }

  /** A sound selection reached by the loop is the target. */
  lemma Arrived(initial: seq<Video>, reserve: seq<Video>, rejected: set<Video>, bad: set<Video>, selected: seq<Video>)
    requires Distinct(initial) && Distinct(reserve) && Members(initial) !! Members(reserve) && rejected <= bad
    requires Underway(initial, reserve, rejected, selected) && Members(selected) !! bad
    ensures Suffices(initial, reserve, bad) && Members(selected) == Target(initial, reserve, bad)
  {
    var s, taken := Sound(reserve, bad), Members(selected) * Members(reserve);
    Composition(initial, reserve, rejected, bad, selected);
    SoundDistinct(reserve, bad);
    forall i, j | 0 <= i < j < |s| && s[j] in taken
      ensures s[i] in taken
    {
      var a, b := SoundOrder(reserve, bad, i, j);
      assert s[j] in s && s[i] in s;
      assert reserve[b] in selected;
    }
    hide Underway, Distinct;
    assert taken <= Members(s);
    ClosedIsPrefix(s, taken);
    MembersCount(selected);
    MembersCount(initial);
    Split(Members(initial), bad);
    assert |Members(selected)| == |Members(initial) - bad| + |taken|;
  }

  lemma Composition(initial: seq<Video>, reserve: seq<Video>, rejected: set<Video>, bad: set<Video>,
                    selected: seq<Video>)
    requires Members(initial) !! Members(reserve) && rejected <= bad
    requires Underway(initial, reserve, rejected, selected) && Members(selected) !! bad
    ensures var taken := Members(selected) * Members(reserve);
      Members(selected) == (Members(initial) - bad) + taken && (Members(initial) - bad) !! taken && Distinct(selected)
  {
    forall v | v in selected
      ensures v in Members(initial) - bad || v in Members(reserve)
    {
      var i :| 0 <= i < |selected| && selected[i] == v;
      assert selected[i] == initial[i] || selected[i] in reserve;
      assert v in Members(selected);
    }
    forall v | v in Members(initial) - bad
      ensures v in selected
    {
      var i :| 0 <= i < |initial| && initial[i] == v;
      assert selected[i] == initial[i];
    }
  }

  /** The loop runs out of reserves only when there are too few sound ones. */
  lemma Exhausted(initial: seq<Video>, reserve: seq<Video>, rejected: set<Video>, bad: set<Video>,
                  selected: seq<Video>, v: Video)
    requires Distinct(initial) && Distinct(reserve) && Members(initial) !! Members(reserve) && rejected <= bad
    requires Underway(initial, reserve, rejected, selected) && Available(reserve, rejected, selected) == []
    requires v in selected && v in rejected
    ensures !Suffices(initial, reserve, bad)
  {
    var kept, sound := Members(initial) - bad, Members(Sound(reserve, bad));
    forall x | x in sound
      ensures x in selected
    {
      assert x !in Available(reserve, rejected, selected);
    }
    forall x | x in kept
      ensures x in selected
    {
      var i :| 0 <= i < |initial| && initial[i] == x;
      assert selected[i] == initial[i];
    }
    assert Distinct(selected) && |selected| == |initial|;
    hide Underway, Distinct, Available;
    SoundDistinct(reserve, bad);
    MembersCount(Sound(reserve, bad));
    MembersCount(selected);
    MembersCount(initial);
    Split(Members(initial), bad);
    assert kept + sound <= Members(selected) - {v};
    Fits(kept, sound, Members(selected), v);
  }

  lemma Fits(a: set<Video>, b: set<Video>, c: set<Video>, v: Video)
    requires a !! b && a + b <= c - {v} && v in c
    ensures |a| + |b| < |c|
  {
    assert |a + b| == |a| + |b|;
    Smaller(a + b, c - {v});
    assert |c - {v}| == |c| - 1;
  }

  lemma {:induction false} Smaller(a: set<Video>, b: set<Video>)
    requires a <= b
    ensures |a| <= |b|
    decreases |a|
  {
    if a != {} {
      var x :| x in a;
      Smaller(a - {x}, b - {x});
    }
  }

  // ---------------------------------------------------------------- the batch of a window

  /** Preparation never reports an invalid medium as sound or a sound one as invalid. */
  ghost predicate Honest(build: nat -> Build, bad: set<Video>)
  {
    forall k :: HonestBuild(build(k), bad)
  }

  ghost predicate HonestBuild(b: Build, bad: set<Video>)
  {
    b.Reported? ==> b.invalid <= bad && b.ready !! bad
  }

  /** A pass that ends and says of every drawn or reserve video whether its media are invalid or its clips ready. */
  ghost predicate Thorough(b: Build, initial: seq<Video>, reserve: seq<Video>, bad: set<Video>)
  {
    && b.Reported?
    && forall v :: v in initial || v in reserve ==> if v in bad then v in b.invalid else v in b.ready
  }

  /** The pass reported, and neither blamed the video nor prepared it. */
  predicate LeftOpen(b: Build, v: Video) { b.Reported? && v !in b.invalid && v !in b.ready }

  /** Some selection the loop can reach still holds a rejected video, with nothing available. */
  ghost predicate RanOut(initial: seq<Video>, reserve: seq<Video>, rejected: set<Video>)
  {
    exists last ::
      Underway(initial, reserve, rejected, last) && Available(reserve, rejected, last) == []
      && exists v :: v in last && v in rejected
  }

  /** A replacement takes the rejected video's position; every sound draw stays where it was. */
  ghost predicate InPlace(initial: seq<Video>, bad: set<Video>, selected: seq<Video>)
  {
    |selected| == |initial| && forall i :: 0 <= i < |initial| && initial[i] !in bad ==> selected[i] == initial[i]
  }

  // ---------------------------------------------------------------- what a run may do to the files

  /** `media-rejections.json` and `selected.json` */
  datatype Files = Files(rejected: set<Video>, locked: Option<seq<Video>>)

  /** Nothing sound is rejected, and a locked batch is the target. */
  ghost predicate Sane(initial: seq<Video>, reserve: seq<Video>, bad: set<Video>, f: Files)
  {
    && f.rejected <= bad
    && (f.locked.Some? ==> Suffices(initial, reserve, bad) && Locked(initial, reserve, bad, f.locked.value))
  }

  ghost predicate Locked(initial: seq<Video>, reserve: seq<Video>, bad: set<Video>, batch: seq<Video>)
    requires Suffices(initial, reserve, bad)
  {
    Distinct(batch) && Members(batch) == Target(initial, reserve, bad) && InPlace(initial, bad, batch)
  }

  /** The selection of a run on its way: the locked batch, or draws and reserves in place. */
  ghost predicate Choosing(initial: seq<Video>, reserve: seq<Video>, bad: set<Video>, f: Files, selected: seq<Video>)
  {
    && Sane(initial, reserve, bad, f)
    && match f.locked
       case Some(batch) => selected == batch && Members(selected) !! bad
       case None => Underway(initial, reserve, f.rejected, selected)
  }

  /** One run of the preparation: what each pass reports, when it is told to stop, and how it ends. */
  datatype Attempt = Attempt(build: nat -> Build, stop: nat -> bool, result: Try<seq<Video>>, builds: nat)

  /** Why a run ends without a batch. */
  ghost predicate Cause(initial: seq<Video>, reserve: seq<Video>, bad: set<Video>, rejected: set<Video>, a: Attempt)
    requires a.result.Err?
  {
    match a.result.error
    case "window_media_reserve_exhausted" => !Suffices(initial, reserve, bad)
    case "window_media_preparation_interrupted" => a.stop(a.builds)
    case "InfrastructureError" => a.builds > 0 && a.build(a.builds - 1).Crashed?
    case "window_batch_incomplete" =>
      a.builds > 0 && exists v :: (v in initial || v in reserve) && v !in rejected && LeftOpen(a.build(a.builds - 1), v)
    case _ => false
  }

  ghost predicate Ran(initial: seq<Video>, reserve: seq<Video>, bad: set<Video>, s: Files, t: Files, a: Attempt)
  {
    && Sane(initial, reserve, bad, t) && s.rejected <= t.rejected
    && (s.locked.Some? ==> t.locked == s.locked) && a.builds <= |t.rejected - s.rejected| + 1
    && match a.result
       case Ok(batch) => t.locked == Some(batch)
       case Err(_) => t.locked == s.locked && Cause(initial, reserve, bad, t.rejected, a)
  }

  class WindowPool {
    const initial: seq<Video>
    const reserve: seq<Video>
    /** `media-rejections.json` */
    var rejected: set<Video>
    /** `selected.json` */
    var locked: Option<seq<Video>>

    ghost predicate Drawn() { Distinct(initial) && Distinct(reserve) && Members(initial) !! Members(reserve) }

    ghost function Now(): Files
      reads this
    {
      Files(rejected, locked)
    }

    ghost predicate Valid(bad: set<Video>)
      reads this
    {
      Drawn() && Sane(initial, reserve, bad, Now())
    }

    constructor (initial: seq<Video>, reserve: seq<Video>)
      ensures this.initial == initial && this.reserve == reserve && rejected == {} && locked == None
    {
      this.initial, this.reserve, rejected, locked := initial, reserve, {}, None;
    }

    /** Fill every rejected place with the next available reserve. */
    method Replace(selected: seq<Video>) returns (r: Try<seq<Video>>)
      requires Drawn() && Underway(initial, reserve, rejected, selected)
      ensures r.Ok? ==> Underway(initial, reserve, rejected, r.value) && forall v :: v in r.value ==> v !in rejected
      ensures r.Err? ==> RanOut(initial, reserve, rejected)
    {
      var now := selected;
      var available := Available(reserve, rejected, selected);
      hide Available, Underway;
      for i := 0 to |selected|
        invariant |now| == |selected| && Underway(initial, reserve, rejected, now)
        invariant available == Available(reserve, rejected, now)
        invariant forall k :: 0 <= k < i ==> now[k] !in rejected
        invariant forall k :: i <= k < |now| ==> now[k] == selected[k]
      {
        if selected[i] in rejected {
          if available == [] {
            assert now[i] in now;
            return Err("window_media_reserve_exhausted");
          }
          ReplaceOne(initial, reserve, rejected, now, i);
          RestAvailable(reserve, rejected, now, i);
          FreshIsSound(reserve, rejected, now);
          now := now[i := available[0]];
          available := available[1..];
        }
      }
      r := Ok(now);
    }

    /** The rejected videos of a selection; when there are none yet, prepare it and learn which are invalid. */
    method Examine(selected: seq<Video>, b: Build, ghost bad: set<Video>) returns (wrong: set<Video>, built: bool)
      requires rejected <= bad && HonestBuild(b, bad)
      modifies this`rejected
      ensures built <==> forall v :: v in selected ==> v !in old(rejected)
      ensures old(rejected) <= rejected <= bad && wrong == set v | v in selected && v in rejected
      ensures !built || wrong == {} ==> rejected == old(rejected)
      ensures built && b.Reported? && wrong == {} ==> forall v :: v in selected ==> v !in b.invalid
      ensures built && wrong != {} ==>
                |bad - rejected| < |bad - old(rejected)|
                && forall was: set<Video> :: was <= old(rejected) ==> |old(rejected) - was| < |rejected - was|
    {
      wrong := set v | v in selected && v in rejected;
      built := wrong == {};
      if built && b.Reported? {
        wrong := set v | v in selected && v in b.invalid;
        if wrong != {} {
          Learnt(rejected, wrong, bad);
          rejected := rejected + wrong;
        }
      }
    }

    /** A fully prepared batch is stored under its final name, once. */
    method Lock(selected: seq<Video>, ready: set<Video>, ghost bad: set<Video>) returns (r: Try<seq<Video>>)
      requires Drawn() && Choosing(initial, reserve, bad, Now(), selected) && ready !! bad
      modifies this`locked
      ensures Valid(bad)
      ensures r == if Members(selected) <= ready then Ok(selected) else Err("window_batch_incomplete")
      ensures locked == if r.Ok? then Some(selected) else old(locked)
    {
      if !(Members(selected) <= ready) {
        return Err("window_batch_incomplete");
      }
      if locked == None {
        Arrived(initial, reserve, rejected, bad, selected);
        assert Distinct(selected) && InPlace(initial, bad, selected);
      }
      hide Underway, Target, Distinct, Members, InPlace, Suffices;
      locked := Some(selected);
      r := Ok(selected);
    }

    /** End a run whose selection holds no rejected video and no video its last pass blamed. */
    method Conclude(selected: seq<Video>, build: nat -> Build, ghost stop: nat -> bool, builds: nat, ghost start: Files,
                    ghost bad: set<Video>)
      returns (r: Try<seq<Video>>)
      requires Drawn() && Choosing(initial, reserve, bad, Now(), selected)
      requires builds > 0 && build(builds - 1).Reported? && build(builds - 1).ready !! bad
      requires forall v :: v in selected ==> v !in rejected && v !in build(builds - 1).invalid
      requires start.rejected <= rejected && locked == start.locked && builds <= |rejected - start.rejected| + 1
      modifies this`locked
      ensures Valid(bad) && Ran(initial, reserve, bad, start, Now(), Attempt(build, stop, r, builds))
    {
      hide Underway, Distinct, Members, Sane, Choosing, Cause, Ran;
      ghost var before := Now();
      LockedOrNot(initial, reserve, bad, Now(), selected);
      r := Lock(selected, build(builds - 1).ready, bad);
      if r.Err? {
        assert Now() == before;
        LeftUnready(initial, reserve, bad, start, Now(), selected, Attempt(build, stop, r, builds));
      } else {
        BatchLocked(initial, reserve, bad, start, Now(), Attempt(build, stop, r, builds));
      }
    }

    /** Prepare and lock the batch; a run that fails does so for one of four causes. */
    method WindowBatch(build: nat -> Build, stop: nat -> bool, ghost bad: set<Video>)
      returns (r: Try<seq<Video>>, builds: nat)
      requires Valid(bad) && Honest(build, bad)
      modifies this
      ensures Valid(bad)
      ensures Ran(initial, reserve, bad, old(Now()), Now(), Attempt(build, stop, r, builds))
    {
      hide Underway, Available, Distinct, Members, RanOut, Sane, Choosing, Cause, Ran;
      ghost var start := Now();
      builds := 0;
      var selected := if locked.Some? then locked.value else initial;
      Begins(initial, reserve, bad, Now(), selected);
      ghost var rank := 1;
      while true
        invariant Choosing(initial, reserve, bad, Now(), selected)
        invariant start.rejected <= rejected <= bad && locked == start.locked
        invariant rank == 0 ==> forall v :: v in selected ==> v !in rejected
        invariant builds <= |rejected - start.rejected|
        decreases |bad - rejected|, rank
      {
        ghost var before := Now();
        var wrong, built := Examine(selected, build(builds), bad);
        Learns(initial, reserve, bad, before, Now(), selected);
        LockedOrNot(initial, reserve, bad, Now(), selected);
        if built {
          builds := builds + 1;
          if build(builds - 1).Crashed? {
            r := Err("InfrastructureError");
            BuildCrashed(initial, reserve, bad, start, Now(), Attempt(build, stop, r, builds));
            return;
          }
        }
        if wrong == {} {
          r := Conclude(selected, build, stop, builds, start, bad);
          return;
        }
        if locked.Some? {
          // `locked_window_media_invalid`: a locked batch is never amended, and never needs to be.
          NoneWrong(initial, reserve, bad, Now(), selected, wrong);
          assert false;
        }
        var replaced := Replace(selected);
        if replaced.Err? {
          r := Err("window_media_reserve_exhausted");
          OutOfReserves(initial, reserve, bad, start, Now(), Attempt(build, stop, r, builds));
          return;
        }
        selected := replaced.value;
        GoesOn(initial, reserve, bad, Now(), selected);
        rank := 0;
        if stop(builds) {
          r := Err("window_media_preparation_interrupted");
          WasStopped(initial, reserve, bad, start, Now(), Attempt(build, stop, r, builds));
          return;
        }
      }
    }
  }

  // ---------------------------------------------------------------- the selection of a run

  lemma Begins(initial: seq<Video>, reserve: seq<Video>, bad: set<Video>, f: Files, selected: seq<Video>)
    requires Distinct(initial) && Members(initial) !! Members(reserve) && Sane(initial, reserve, bad, f)
    requires selected == if f.locked.Some? then f.locked.value else initial
    ensures Choosing(initial, reserve, bad, f, selected) && f.rejected <= bad
  {
    if f.locked.Some? {
      LockedIsSound(initial, reserve, bad, selected);
    } else {
      InitialUnderway(initial, reserve, f.rejected);
    }
  }

  lemma Learns(initial: seq<Video>, reserve: seq<Video>, bad: set<Video>, f: Files, g: Files, selected: seq<Video>)
    requires Choosing(initial, reserve, bad, f, selected)
    requires f.rejected <= g.rejected <= bad && g.locked == f.locked
    ensures Choosing(initial, reserve, bad, g, selected)
  {
    hide Suffices, Locked, Members;
    if f.locked == None {
      MoreRejected(initial, reserve, f.rejected, g.rejected, selected);
    }
  }

  lemma LockedOrNot(initial: seq<Video>, reserve: seq<Video>, bad: set<Video>, f: Files, selected: seq<Video>)
    requires Choosing(initial, reserve, bad, f, selected)
    ensures Sane(initial, reserve, bad, f) && (f.locked == None ==> Underway(initial, reserve, f.rejected, selected))
    ensures f.locked.Some? ==> f.locked == Some(selected)
  {
  }

  lemma GoesOn(initial: seq<Video>, reserve: seq<Video>, bad: set<Video>, f: Files, selected: seq<Video>)
    requires f.locked == None && f.rejected <= bad && Underway(initial, reserve, f.rejected, selected)
    ensures Choosing(initial, reserve, bad, f, selected)
  {
  }

  /** A locked batch holds no invalid media. */
  lemma NoneWrong(initial: seq<Video>, reserve: seq<Video>, bad: set<Video>, f: Files, selected: seq<Video>,
                  wrong: set<Video>)
    requires Choosing(initial, reserve, bad, f, selected) && f.locked.Some?
    requires wrong <= bad && forall v :: v in wrong ==> v in selected
    ensures wrong == {}
  {
    assert forall v :: v in wrong ==> v in Members(selected);
  }

  // ---------------------------------------------------------------- why a run fails

  /** What every run has to keep, as far as it is known without its result. */
  ghost predicate Kept(initial: seq<Video>, reserve: seq<Video>, bad: set<Video>, s: Files, t: Files, a: Attempt)
  {
    && Sane(initial, reserve, bad, t) && s.rejected <= t.rejected && t.locked == s.locked
    && a.builds <= |t.rejected - s.rejected| + 1
  }

  lemma BuildCrashed(initial: seq<Video>, reserve: seq<Video>, bad: set<Video>, s: Files, t: Files, a: Attempt)
    requires Kept(initial, reserve, bad, s, t, a)
    requires a.result == Err("InfrastructureError") && a.builds > 0 && a.build(a.builds - 1).Crashed?
    ensures Ran(initial, reserve, bad, s, t, a)
  {
    hide Sane;
  }

  lemma WasStopped(initial: seq<Video>, reserve: seq<Video>, bad: set<Video>, s: Files, t: Files, a: Attempt)
    requires Kept(initial, reserve, bad, s, t, a)
    requires a.result == Err("window_media_preparation_interrupted") && a.stop(a.builds)
    ensures Ran(initial, reserve, bad, s, t, a)
  {
    hide Sane;
  }

  lemma OutOfReserves(initial: seq<Video>, reserve: seq<Video>, bad: set<Video>, s: Files, t: Files, a: Attempt)
    requires Distinct(initial) && Distinct(reserve) && Members(initial) !! Members(reserve) && t.rejected <= bad
    requires Kept(initial, reserve, bad, s, t, a)
    requires RanOut(initial, reserve, t.rejected) && a.result == Err("window_media_reserve_exhausted")
    ensures Ran(initial, reserve, bad, s, t, a)
  {
    hide Underway, Available, Suffices, Distinct, Sane;
    var last :| Underway(initial, reserve, t.rejected, last) && Available(reserve, t.rejected, last) == []
                && exists v :: v in last && v in t.rejected;
    var v :| v in last && v in t.rejected;
    Exhausted(initial, reserve, t.rejected, bad, last, v);
  }

  /** Whatever the selection holds was drawn or comes from the reserve. */
  lemma FromDraw(initial: seq<Video>, reserve: seq<Video>, bad: set<Video>, f: Files, selected: seq<Video>, v: Video)
    requires Choosing(initial, reserve, bad, f, selected) && v in selected
    ensures v in initial || v in reserve
  {
    if f.locked == None {
      var i :| 0 <= i < |selected| && selected[i] == v;
    } else {
      assert v in Members(selected);
      var n := |Members(initial) * bad|;
      assert v in Sound(reserve, bad)[..n] ==> v in Sound(reserve, bad);
    }
  }

  /** A selection that cannot be locked holds a video on which the pass left the question open. */
  lemma LeftUnready(initial: seq<Video>, reserve: seq<Video>, bad: set<Video>, s: Files, t: Files,
                    selected: seq<Video>, a: Attempt)
    requires Kept(initial, reserve, bad, s, t, a) && Choosing(initial, reserve, bad, t, selected)
    requires a.result == Err("window_batch_incomplete") && a.builds > 0 && a.build(a.builds - 1).Reported?
    requires var b := a.build(a.builds - 1);
      !(Members(selected) <= b.ready) && forall v :: v in selected ==> v !in t.rejected && v !in b.invalid
    ensures Ran(initial, reserve, bad, s, t, a)
  {
    hide Choosing, Sane;
    var b := a.build(a.builds - 1);
    var v :| v in Members(selected) && v !in b.ready;
    FromDraw(initial, reserve, bad, t, selected, v);
    assert LeftOpen(b, v);
  }

  lemma BatchLocked(initial: seq<Video>, reserve: seq<Video>, bad: set<Video>, s: Files, t: Files, a: Attempt)
    requires Sane(initial, reserve, bad, t) && s.rejected <= t.rejected && a.builds <= |t.rejected - s.rejected| + 1
    requires a.result.Ok? && t.locked == Some(a.result.value) && (s.locked.Some? ==> t.locked == s.locked)
    ensures Ran(initial, reserve, bad, s, t, a)
  {
    hide Sane;
  }

  // ---------------------------------------------------------------- any number of runs

  /** A history of one window from the start: the files between its runs, and the runs. */
  ghost predicate History(initial: seq<Video>, reserve: seq<Video>, bad: set<Video>, files: seq<Files>,
                          runs: seq<Attempt>)
  {
    && |files| == |runs| + 1 && files[0] == Files({}, None)
    && forall k :: 0 <= k < |runs| ==> Ran(initial, reserve, bad, files[k], files[k + 1], runs[k])
  }

  ghost predicate ThoroughRun(initial: seq<Video>, reserve: seq<Video>, bad: set<Video>, a: Attempt)
  {
    (forall k :: Thorough(a.build(k), initial, reserve, bad)) && forall k :: !a.stop(k)
  }

  /** A thorough run that nobody stops locks the target exactly when the reserve suffices, from any files. */
  lemma ThoroughRunLocks(initial: seq<Video>, reserve: seq<Video>, bad: set<Video>, s: Files, t: Files, a: Attempt)
    requires Ran(initial, reserve, bad, s, t, a) && ThoroughRun(initial, reserve, bad, a)
    ensures a.result.Ok? <==> Suffices(initial, reserve, bad)
    ensures a.result.Err? ==> a.result.error == "window_media_reserve_exhausted"
    ensures a.result.Ok? ==> Locked(initial, reserve, bad, a.result.value)
  {
    hide Suffices, Locked;
    if a.result.Err? {
      assert a.builds > 0 ==> Thorough(a.build(a.builds - 1), initial, reserve, bad);
    }
  }

  lemma {:induction false} RunsStaySane(initial: seq<Video>, reserve: seq<Video>, bad: set<Video>, files: seq<Files>,
                                        runs: seq<Attempt>, i: nat, j: nat)
    requires History(initial, reserve, bad, files, runs) && i <= j < |files|
    ensures Sane(initial, reserve, bad, files[i]) && Sane(initial, reserve, bad, files[j])
    ensures files[i].locked.Some? ==> files[j].locked == files[i].locked
    decreases j
  {
    hide Suffices, Locked, Cause;
    if i < j {
      RunsStaySane(initial, reserve, bad, files, runs, i, j - 1);
      assert Ran(initial, reserve, bad, files[j - 1], files[j], runs[j - 1]);
    } else if j > 0 {
      RunsStaySane(initial, reserve, bad, files, runs, i - 1, j - 1);
      assert Ran(initial, reserve, bad, files[j - 1], files[j], runs[j - 1]);
    }
  }

  /** One draw per window: over any sequence of runs, every batch that is returned is the target, and the same one. */
  lemma OneBatchPerWindow(initial: seq<Video>, reserve: seq<Video>, bad: set<Video>, files: seq<Files>,
                          runs: seq<Attempt>, i: nat, j: nat)
    requires History(initial, reserve, bad, files, runs) && i <= j < |runs|
    requires runs[i].result.Ok? && runs[j].result.Ok?
    ensures runs[j].result == runs[i].result
    ensures Suffices(initial, reserve, bad) && Locked(initial, reserve, bad, runs[i].result.value)
  {
    hide Suffices, Locked, Cause;
    assert Ran(initial, reserve, bad, files[i], files[i + 1], runs[i]);
    assert Ran(initial, reserve, bad, files[j], files[j + 1], runs[j]);
    RunsStaySane(initial, reserve, bad, files, runs, i + 1, j + 1);
  }

  /** After any number of crashed, incomplete and stopped runs a thorough one returns the target if there is one. */
  lemma AThoroughRunIsEnough(initial: seq<Video>, reserve: seq<Video>, bad: set<Video>, files: seq<Files>,
                             runs: seq<Attempt>, j: nat)
    requires History(initial, reserve, bad, files, runs) && j < |runs|
    requires ThoroughRun(initial, reserve, bad, runs[j])
    ensures runs[j].result.Ok? <==> Suffices(initial, reserve, bad)
    ensures runs[j].result.Ok? ==> Locked(initial, reserve, bad, runs[j].result.value)
  {
    hide Suffices, Locked, Cause, ThoroughRun;
    assert Ran(initial, reserve, bad, files[j], files[j + 1], runs[j]);
    ThoroughRunLocks(initial, reserve, bad, files[j], files[j + 1], runs[j]);
  }

  /** Each newly learnt rejection is progress. */
  lemma Learnt(rejected: set<Video>, wrong: set<Video>, bad: set<Video>)
    requires wrong != {} && wrong !! rejected && rejected <= bad && wrong <= bad
    ensures |bad - (rejected + wrong)| < |bad - rejected|
    ensures forall was: set<Video> :: was <= rejected ==> |rejected - was| < |rejected + wrong - was|
  {
    var x :| x in wrong;
    Smaller(bad - (rejected + wrong), bad - rejected - {x});
    forall was: set<Video> | was <= rejected
      ensures |rejected - was| < |rejected + wrong - was|
    {
      assert rejected + wrong - was == (rejected - was) + wrong;
    }
  }

  lemma LockedIsSound(initial: seq<Video>, reserve: seq<Video>, bad: set<Video>, batch: seq<Video>)
    requires Suffices(initial, reserve, bad) && Locked(initial, reserve, bad, batch)
    ensures Members(batch) !! bad
  {
    var n := |Members(initial) * bad|;
    assert forall v :: v in Sound(reserve, bad)[..n] ==> v in Sound(reserve, bad);
  }

  lemma InitialUnderway(initial: seq<Video>, reserve: seq<Video>, rejected: set<Video>)
    requires Distinct(initial) && Members(initial) !! Members(reserve)
    ensures Underway(initial, reserve, rejected, initial)
  {
    assert forall j :: 0 <= j < |reserve| ==> reserve[j] in Members(reserve);
  }

  /** Learning of more invalid media does not disturb a selection. */
  lemma MoreRejected(initial: seq<Video>, reserve: seq<Video>, rejected: set<Video>, more: set<Video>,
                     selected: seq<Video>)
    requires Underway(initial, reserve, rejected, selected) && rejected <= more
    ensures Underway(initial, reserve, more, selected)
  {
  }

  lemma FreshIsSound(reserve: seq<Video>, rejected: set<Video>, selected: seq<Video>)
    requires Available(reserve, rejected, selected) != []
    ensures Available(reserve, rejected, selected)[0] !in rejected
  {
    assert Available(reserve, rejected, selected)[0] in Available(reserve, rejected, selected);
  }
}
