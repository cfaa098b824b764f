/** The market-data thread: the sequence state machine and the driver loops that
    feed it from arbitrary transports. */
module MarketData {
  import opened Events
  import opened Fragmenter
  import opened Protocol

  datatype ReconAction = Drop | Emit | EmitAndGoLive | Gap | NeedSnapshot | SnapshotTooOld

  datatype ReconState = StIdle | StAwaitFirstEvent | StLive

  /** What the protocol document asks for one diff message with ids U = first
      and u = final. */
  function Decide(p: Phase, first: nat, final: nat): (ReconAction, Phase) {
    match p
    case Idle => (NeedSnapshot, p)
    case Await(l) =>
      if final <= l then (Drop, p)
      else if first <= l + 1 then (EmitAndGoLive, Live(final))
      else (SnapshotTooOld, p)
    case Live(u) =>
      if first == u + 1 then (Emit, Live(final)) else (Gap, Idle)
  }

  predicate Emits(a: ReconAction) {
    a.Emit? || a.EmitAndGoLive?
  }

  /** The state machine emits a message exactly when the protocol admits it. */
  lemma EmitsExactlyAdmitted(p: Phase, upd: DepthUpdate, ts: int)
    ensures Emits(Decide(p, upd.firstId, upd.finalId).0) <==> Admits(p, DiffGroup(upd, ts))
    ensures Decide(p, upd.firstId, upd.finalId).1 ==
      if Admits(p, DiffGroup(upd, ts)) then Next(p, DiffGroup(upd, ts)) else if p.Live? then Idle else p
  {
  }

  /** What the thread takes in, in order: a parsed snapshot, a parsed depth
      update, or a reset before a resync or reconnect. */
  datatype Input = Fetched(snap: DepthSnapshot, ts: int) | Read(upd: DepthUpdate, ts: int) | Reset

  datatype Follower = Follower(phase: Phase, sent: seq<Group>)

  function Fed(f: Follower, i: Input): Follower {
    match i
    case Fetched(snap, ts) => Follower(Await(snap.lastId), f.sent + [SnapGroup(snap, ts)])
    case Read(upd, ts) =>
      var (action, p) := Decide(f.phase, upd.firstId, upd.finalId);
      Follower(p, if Emits(action) then f.sent + [DiffGroup(upd, ts)] else f.sent)
    case Reset => f.(phase := Idle)
  }

  /** The messages a protocol follower forwards for given inputs: every snapshot,
      and every depth update that is admissible when it arrives. */
  function Follow(inputs: seq<Input>): Follower {
    if inputs == [] then Follower(Idle, []) else Fed(Follow(inputs[..|inputs| - 1]), inputs[|inputs| - 1])
  }

  lemma FollowSnoc(inputs: seq<Input>, i: Input)
    ensures Follow(inputs + [i]) == Fed(Follow(inputs), i)
  {
    assert (inputs + [i])[..|inputs|] == inputs;
  }

  lemma FollowRead(inputs: seq<Input>, upd: DepthUpdate, ts: int)
    ensures var f, f' := Follow(inputs), Follow(inputs + [Read(upd, ts)]);
      var (action, p) := Decide(f.phase, upd.firstId, upd.finalId);
      f'.phase == p && f'.sent == if Emits(action) then f.sent + [DiffGroup(upd, ts)] else f.sent
  {
    FollowSnoc(inputs, Read(upd, ts));
  }

  /** For arbitrary inputs, what is forwarded is a legal message stream. */
  lemma {:induction false} FollowIsLegal(inputs: seq<Input>)
    ensures Legal(Follow(inputs).sent)
    ensures Follow(inputs).phase in {Idle, PhaseAfter(Follow(inputs).sent)}
    decreases |inputs|
  {
    if inputs != [] {
      var i := inputs[|inputs| - 1];
      var f := Follow(inputs[..|inputs| - 1]);
      FollowIsLegal(inputs[..|inputs| - 1]);
      match i {
        case Fetched(snap, ts) => Snoc(f.sent, SnapGroup(snap, ts));
        case Read(upd, ts) =>
          EmitsExactlyAdmitted(f.phase, upd, ts);
          Snoc(f.sent, DiffGroup(upd, ts));
        case Reset =>
      }
    }
  }

  class Reconstructor {
    var state: ReconState
    var snapshotLastId: nat
    var prevU: nat

    ghost function Phase(): Phase
      reads this
    {
      match state
      case StIdle => Idle
      case StAwaitFirstEvent => Await(snapshotLastId)
      case StLive => Live(prevU)
    }

    constructor ()
      ensures Phase() == Idle
    {
      state, snapshotLastId, prevU := StIdle, 0, 0;
    }

    method OnSnapshot(snap: DepthSnapshot, ts: int) returns (out: seq<MarketEvent>)
      modifies this
      ensures Phase() == Await(snap.lastId)
      ensures out == EventsOf(SnapGroup(snap, ts))
    {
      snapshotLastId := snap.lastId;
      state := StAwaitFirstEvent;
      prevU := 0;
      out := Fragment(SnapProto(snap, ts), snap.bids, snap.asks, true);
    }

    method OnDiffGroup(group: seq<MarketEvent>) returns (action: ReconAction)
      modifies this
      ensures group == [] ==> action == Gap && Phase() == old(Phase())
      ensures group != [] ==>
        (action, Phase()) == Decide(old(Phase()), group[0].firstId, group[0].finalId)
    {
      if group == [] { return Gap; }
      var first, final := group[0].firstId, group[0].finalId;
      match state {
        case StIdle => return NeedSnapshot;
        case StAwaitFirstEvent =>
          if final <= snapshotLastId { return Drop; }
          if first <= snapshotLastId + 1 {
            prevU := final;
            state := StLive;
            return EmitAndGoLive;
          }
          return SnapshotTooOld;
        case StLive =>
          if first == prevU + 1 {
            prevU := final;
            return Emit;
          }
          state := StIdle;
          return Gap;
      }
    }

    method Reset()
      modifies this
      ensures Phase() == Idle
    {
      state, snapshotLastId, prevU := StIdle, 0, 0;
    }
  }

  /** A websocket read: a transport failure, a frame that is not a depth update,
      or a parsed depth update. */
  datatype Frame = ReadFailed | NotDepth | Depth(upd: DepthUpdate)

  /** Everything outside the thread's control, indexed by the number of
      interactions so far: an arbitrary environment in which the stop flag is
      raised after some finite number of them and then stays raised. */
  datatype World = World(
    stopAt: nat,
    connects: nat -> bool,
    snapshots: nat -> Option<DepthSnapshot>,
    frames: nat -> Frame,
    queueFull: nat -> bool,
    now: nat -> int)

  /** The input was delivered by the world at some time. */
  ghost predicate Delivered(w: World, i: Input) {
    match i
    case Fetched(snap, _) => exists t :: w.snapshots(t) == Some(snap)
    case Read(upd, _) => UpdateDelivered(w, upd)
    case Reset => true
  }

  ghost predicate AllDelivered(w: World, inputs: seq<Input>) {
    forall i :: i in inputs ==> Delivered(w, i)
  }

  ghost predicate UpdateDelivered(w: World, upd: DepthUpdate) {
    exists t :: w.frames(t) == Depth(upd)
  }

  datatype BootResult = BootLive | BootTooOld | BootError | BootStopped

  lemma ReadDelivered(w: World, inputs: seq<Input>, upd: DepthUpdate, ts: int)
    requires AllDelivered(w, inputs) && UpdateDelivered(w, upd)
    ensures AllDelivered(w, inputs + [Read(upd, ts)])
  {
  }

  class MarketDataThread {
    const world: World
    const maxRefetch: int
    const recon: Reconstructor
    var clock: nat
    var pushed: seq<MarketEvent>
    var connected: bool
    /** What was taken in so far. */
    ghost var inputs: seq<Input>

    constructor (world: World, maxRefetch: int)
      ensures this.world == world
      ensures Sound() && clock == 0 && fresh(recon)
    {
      this.world, this.maxRefetch := world, maxRefetch;
      recon := new Reconstructor();
      clock, pushed, connected, inputs := 0, [], false, [];
    }

    /** The queue received what a follower of the protocol forwards for the
        inputs taken in, except that the last message may be cut short. */
    ghost predicate Emitted()
      reads this`pushed, this`inputs
    {
      var sent := Follow(inputs).sent;
      && AllDelivered(world, inputs)
      && pushed <= Flatten(sent)
      && (sent != [] ==> Flatten(sent[..|sent| - 1]) <= pushed)
    }

    /** Emitted, at a message boundary, with the state machine in step. */
    ghost predicate Sound()
      reads this`pushed, this`inputs, recon
    {
      && AllDelivered(world, inputs)
      && pushed == Flatten(Follow(inputs).sent)
      && recon.Phase() == Follow(inputs).phase
    }

    lemma SoundIsEmitted()
      requires Sound()
      ensures Emitted()
    {
      var sent := Follow(inputs).sent;
      assert sent != [] ==> Flatten(sent[..|sent| - 1]) <= Flatten(sent);
    }

    ghost function Remaining(): nat
      reads this`clock
    {
      if clock < world.stopAt then world.stopAt - clock else 0
    }

    method LoadStop() returns (stop: bool)
      modifies this`clock
      ensures clock == old(clock) + 1
      ensures stop <==> old(clock) >= world.stopAt
    {
      stop := clock >= world.stopAt;
      clock := clock + 1;
    }

    method ReadFrame() returns (frame: Frame)
      modifies this`clock
      ensures clock == old(clock) + 1
      ensures frame.Depth? ==> UpdateDelivered(world, frame.upd)
    {
      frame := world.frames(clock);
      clock := clock + 1;
    }

    /** Push one event, waiting while the queue is full; gives up only when the
        stop flag is seen. */
    method PushOne(ev: MarketEvent) returns (ok: bool)
      modifies this`clock, this`pushed
      ensures clock >= old(clock)
      ensures pushed == if ok then old(pushed) + [ev] else old(pushed)
      ensures !ok ==> clock > world.stopAt
    {
      while true
        invariant clock >= old(clock) && pushed == old(pushed)
        decreases Remaining()
      {
        var full := world.queueFull(clock);
        clock := clock + 1;
        if !full { break; }
        var stop := LoadStop();
        if stop { return false; }
      }
      pushed := pushed + [ev];
      return true;
    }

    method PushGroup(group: seq<MarketEvent>) returns (ok: bool)
      modifies this`clock, this`pushed
      ensures clock >= old(clock)
      ensures old(pushed) <= pushed <= old(pushed) + group
      ensures ok ==> pushed == old(pushed) + group
      ensures !ok ==> clock > world.stopAt
    {
      var i := 0;
      while i < |group|
        invariant i <= |group| && clock >= old(clock)
        invariant pushed == old(pushed) + group[..i]
      {
        var sent := PushOne(group[i]);
        if !sent { return false; }
        assert group[..i + 1] == group[..i] + [group[i]];
        i := i + 1;
      }
      return true;
    }

    /** Push the message that the newest input made the follower forward. */
    method SendGroup(ghost g: Group, ghost before: seq<Group>, events: seq<MarketEvent>) returns (ok: bool)
      requires AllDelivered(world, inputs) && Follow(inputs).sent == before + [g]
      requires events == EventsOf(g) && pushed == Flatten(before)
      modifies this`clock, this`pushed
      ensures clock >= old(clock)
      ensures Emitted()
      ensures ok ==> pushed == Flatten(Follow(inputs).sent)
      ensures !ok ==> clock > world.stopAt
    {
      Snoc(before, g);
      ok := PushGroup(events);
      assert (before + [g])[..|before|] == before;
    }

    /** Parse a depth update, let the state machine decide, and push it if told to. */
    method TakeUpdate(upd: DepthUpdate) returns (action: ReconAction, sent: bool)
      requires Sound() && UpdateDelivered(world, upd)
      modifies this, recon
      ensures clock >= old(clock)
      ensures inputs == old(inputs) + [Read(upd, world.now(old(clock)))]
      ensures (action, recon.Phase()) == Decide(old(recon.Phase()), upd.firstId, upd.finalId)
      ensures if sent then Sound() else Emitted() && clock > world.stopAt && Emits(action)
    {
      var now := world.now(clock);
      var scratch := Fragment(DiffProto(upd, now), upd.bids, upd.asks, false);
      EventsOfShape(DiffGroup(upd, now));
      action := recon.OnDiffGroup(scratch);
      FollowRead(inputs, upd, now);
      ReadDelivered(world, inputs, upd, now);
      ghost var before := Follow(inputs).sent;
      inputs := inputs + [Read(upd, now)];
      sent := Forward(action, DiffGroup(upd, now), before, scratch);
    }

    /** Push the message if the state machine said so. */
    method Forward(action: ReconAction, ghost g: Group, ghost before: seq<Group>, events: seq<MarketEvent>)
      returns (sent: bool)
      requires AllDelivered(world, inputs) && recon.Phase() == Follow(inputs).phase
      requires Follow(inputs).sent == if Emits(action) then before + [g] else before
      requires events == EventsOf(g) && pushed == Flatten(before)
      modifies this`clock, this`pushed
      ensures clock >= old(clock)
      ensures if sent then Sound() else Emitted() && clock > world.stopAt && Emits(action)
    {
      sent := true;
      if action == Emit || action == EmitAndGoLive { sent := SendGroup(g, before, events); }
    }

    /** What a bootstrap outcome, or none yet, says about the thread. */
    ghost predicate Booted(r: Option<BootResult>)
      reads this`pushed, this`inputs, recon
    {
      && (r == Some(BootStopped) ==> Sound() || Emitted())
      && (r != Some(BootStopped) ==> Sound())
      && (r == Some(BootLive) ==> recon.Phase().Live?)
      && (r == None ==> recon.Phase().Await?)
    }

    /** One frame while waiting for the bracket message; no outcome means keep
        reading, `BootTooOld` asks for a newer snapshot. */
    method BootFrame(frame: Frame) returns (r: Option<BootResult>)
      requires Booted(None)
      requires frame.Depth? ==> UpdateDelivered(world, frame.upd)
      modifies this, recon
      ensures clock >= old(clock)
      ensures Booted(r)
    {
      if frame.ReadFailed? { return Some(BootError); }
      if frame.NotDepth? { return None; }
      ghost var p := recon.Phase();
      var action, sent := TakeUpdate(frame.upd);
      BootOutcomeHolds(p, frame.upd, action, sent);
      match action {
        case Drop => r := None;
        case EmitAndGoLive => r := Some(if sent then BootLive else BootStopped);
        case SnapshotTooOld => r := Some(BootTooOld);
        case _ => r := Some(BootError);
      }
    }

    lemma BootOutcomeHolds(p: Phase, upd: DepthUpdate, action: ReconAction, sent: bool)
      requires p.Await? && (action, recon.Phase()) == Decide(p, upd.firstId, upd.finalId)
      requires if sent then Sound() else Emitted() && Emits(action)
      ensures Booted(match action
                     case Drop => None
                     case EmitAndGoLive => Some(if sent then BootLive else BootStopped)
                     case SnapshotTooOld => Some(BootTooOld)
                     case _ => Some(BootError))
    {
    }

    /** Read frames, dropping those that predate the snapshot, until an outcome. */
    method AwaitBracket() returns (r: BootResult)
      requires Booted(None)
      modifies this, recon
      ensures clock >= old(clock)
      ensures Booted(Some(r))
    {
      while true
        invariant Booted(None) && clock >= old(clock)
        decreases Remaining()
      {
        var stop := LoadStop();
        if stop { return BootStopped; }
        var frame := ReadFrame();
        var res := BootFrame(frame);
        if res.Some? {
          stop := LoadStop();
          if res.value == BootTooOld && stop { return BootStopped; }
          return res.value;
        }
      }
    }

    method Bootstrap() returns (r: BootResult)
      requires Sound()
      modifies this, recon
      ensures clock >= old(clock)
      ensures Booted(Some(r))
    {
      var attempt := 0;
      while attempt < maxRefetch
        invariant Sound() && clock >= old(clock)
      {
        var stop := LoadStop();
        if stop { return BootStopped; }
        var body := world.snapshots(clock);
        clock := clock + 1;
        if body.None? { return BootError; }
        var now := world.now(clock);
        FollowSnoc(inputs, Fetched(body.value, now));
        ghost var before := Follow(inputs).sent;
        inputs := inputs + [Fetched(body.value, now)];
        var events := recon.OnSnapshot(body.value, now);
        var sent := SendGroup(SnapGroup(body.value, now), before, events);
        if !sent { return BootStopped; }
        r := AwaitBracket();
        if r != BootTooOld { return; }
        attempt := attempt + 1;
      }
      return BootTooOld;
    }

    /** Returns true on a detected gap. A false return without soundness only
        happens after the stop flag was seen. */
    method RunLive() returns (gap: bool)
      requires Sound() && recon.Phase().Live?
      modifies this, recon
      ensures clock >= old(clock)
      ensures Sound() || (Emitted() && !gap && clock > world.stopAt)
    {
      while true
        invariant Sound() && recon.Phase().Live? && clock >= old(clock)
        decreases Remaining()
      {
        var stop := LoadStop();
        if stop { break; }
        var frame := ReadFrame();
        if frame.ReadFailed? { return false; }
        if frame.NotDepth? { continue; }
        var action, sent := TakeUpdate(frame.upd);
        if action == Emit || action == EmitAndGoLive {
          if !sent { return false; }
        } else if action == Gap {
          return true;
        }
      }
      return false;
    }

    /** The whole thread: connect, bootstrap, run live, resync or reconnect, until
        stopped. Whatever the world does, the queue receives exactly what a
        follower of the protocol forwards, which is a legal stream. */
    method Run()
      requires Sound()
      modifies this, recon
      ensures Emitted()
      ensures LegalStream(pushed)
    {
      while true
        invariant Sound()
        decreases Remaining()
      {
        var stop := LoadStop();
        if stop { break; }
        if !connected {
          var ok := world.connects(clock);
          clock := clock + 1;
          if !ok { continue; }
          connected := true;
        }
        var boot := Bootstrap();
        if boot == BootStopped { break; }
        if boot != BootLive {
          connected := false;
          continue;
        }
        var gap := RunLive();
        stop := LoadStop();
        if stop { break; }
        if !gap { connected := false; }
        recon.Reset();
        FollowSnoc(inputs, Reset);
        inputs := inputs + [Reset];
      }
      if Sound() { SoundIsEmitted(); }
      FollowIsLegal(inputs);
    }
  }
}
