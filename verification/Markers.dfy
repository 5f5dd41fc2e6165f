/** internal/agenthttp/server.go:305-356, 405-489: a controller that may crash at any moment, and the
    marker files that keep a run identity from being executed twice. */
module Markers {
  import opened Keys

  /** What the disk does when a new marker is written: opening fails, the marker is created but some
      write, sync or close fails, or marker and directory are both synced. */
  datatype Disk = OpenFails | SyncFails | Synced

  datatype Reply = Created | Existing | Conflict | Unavailable | Released | Unknown

  /** runs is the controller's memory; visible are the markers the file system shows, durable those
      that are on disk. started logs every execution ever launched. */
  datatype State = State(runs: map<Key, string>, visible: set<Key>, durable: set<Key>, started: seq<Key>)

  const INITIAL := State(map[], {}, {}, [])

  datatype Step =
    | Put(id: Key, fingerprint: string, disk: Disk)
    | Release(id: Key, disk: Disk, cleaned: bool)
    | Restart
    | PowerLoss(kept: set<Key>)

  function Marked(s: State, id: Key, disk: Disk): State {
    match disk
    case OpenFails => s
    case SyncFails => s.(visible := s.visible + {id})
    case Synced => s.(visible := s.visible + {id}, durable := s.durable + {id})
  }

  function PutReply(s: State, id: Key, fingerprint: string, disk: Disk): Reply {
    if id in s.runs then (if s.runs[id] == fingerprint then Existing else Conflict)
    else if id in s.visible then Conflict
    else if disk != Synced then Unavailable
    else Created
  }

  function ReleaseReply(s: State, id: Key, disk: Disk, cleaned: bool): Reply {
    if (id in s.visible || disk == Synced) && cleaned then Released else Unknown
  }

  /** A restart forgets the runs; losing power may also forget markers that were never synced, and
      what survives is on disk. */
  function Next(s: State, step: Step): State {
    match step
    case Put(id, fingerprint, disk) =>
      if id in s.runs || id in s.visible then s
      else
        var m := Marked(s, id, disk);
        if disk == Synced then m.(runs := s.runs[id := fingerprint], started := s.started + [id]) else m
    case Release(id, disk, _) => if id in s.visible then s else Marked(s, id, disk)
    case Restart => s.(runs := map[])
    case PowerLoss(kept) =>
      var left := s.durable + (kept * s.visible);
      s.(runs := map[], visible := left, durable := left)
  }

  function After(s: State, steps: seq<Step>): State {
    if steps == [] then s else Next(After(s, steps[..|steps| - 1]), steps[|steps| - 1])
  }

  class Controller {
    var runs: map<Key, string>
    var visible: set<Key>
    ghost var durable: set<Key>
    ghost var started: seq<Key>

    constructor ()
      ensures Current() == INITIAL
    {
      runs, visible := map[], {};
      durable, started := {}, [];
    }

    ghost function Current(): State
      reads this
    {
      State(runs, visible, durable, started)
    }

    /** server.go:449-482 and 315-332: create the marker exclusively, write it, sync it and the directory. */
    method WriteMarker(id: Key, disk: Disk) returns (ok: bool)
      modifies this
      ensures ok == (disk == Synced)
      ensures Current() == Marked(old(Current()), id, disk)
    {
      if disk == OpenFails {
        return false;
      }
      visible := visible + {id};
      if disk == SyncFails {
        return false;
      }
      durable := durable + {id};
      return true;
    }

    /** server.go:437-488 */
    method Create(id: Key, fingerprint: string, disk: Disk) returns (reply: Reply)
      modifies this
      ensures reply == PutReply(old(Current()), id, fingerprint, disk)
      ensures Current() == Next(old(Current()), Put(id, fingerprint, disk))
      ensures reply == Created <==> started == old(started) + [id]
      ensures reply == Created ==> id in durable && runs == old(runs)[id := fingerprint] && id !in old(runs) && id !in old(visible)
      ensures reply != Created ==> started == old(started) && runs == old(runs)
      ensures reply == Existing <==> id in old(runs) && old(runs)[id] == fingerprint
      ensures reply == Conflict <==> (id in old(runs) && old(runs)[id] != fingerprint) || (id !in old(runs) && id in old(visible))
      ensures reply in {Created, Existing, Conflict, Unavailable}
    {
      if id in runs {
        if runs[id] != fingerprint {
          return Conflict;
        }
        return Existing;
      }
      if id in visible {
        return Conflict;
      }
      var ok := WriteMarker(id, disk);
      if !ok {
        return Unavailable;
      }
      runs := runs[id := fingerprint];
      started := started + [id];
      return Created;
    }

    /** server.go:310-355 */
    method ReleaseEnvironment(id: Key, disk: Disk, cleaned: bool) returns (reply: Reply)
      modifies this
      ensures reply == ReleaseReply(old(Current()), id, disk, cleaned)
      ensures Current() == Next(old(Current()), Release(id, disk, cleaned))
      ensures runs == old(runs) && started == old(started) && reply in {Released, Unknown}
      ensures reply == Released <==> cleaned && (id in old(visible) || disk == Synced)
      ensures reply == Released ==> id in visible
    {
      if id !in visible {
        var ok := WriteMarker(id, disk);
        if !ok {
          return Unknown;
        }
      }
      if !cleaned {
        return Unknown;
      }
      return Released;
    }
  }

  // ---------- at most once ----------

  /** A synced marker stands for every execution ever launched. */
  ghost predicate Fenced(s: State) {
    && s.durable <= s.visible
    && (forall id :: id in s.started ==> id in s.durable)
    && DistinctKeys(s.started, Itself)
  }

  lemma StepFenced(s: State, step: Step)
    requires Fenced(s)
    ensures Fenced(Next(s, step)) && s.durable <= Next(s, step).durable && s.started <= Next(s, step).started
  {
    if step.Put? && step.id !in s.runs && step.id !in s.visible && step.disk == Synced {
      assert step.id !in s.started;
      var more := s.started + [step.id];
      forall i, j | 0 <= i < j < |more| ensures Itself(more[i]) != Itself(more[j]) {
        assert more[i] in s.started;
      }
    }
  }

  lemma {:induction false} RunFenced(s: State, steps: seq<Step>)
    requires Fenced(s)
    ensures Fenced(After(s, steps)) && s.durable <= After(s, steps).durable && s.started <= After(s, steps).started
  {
    if steps != [] {
      RunFenced(s, steps[..|steps| - 1]);
      StepFenced(After(s, steps[..|steps| - 1]), steps[|steps| - 1]);
    }
  }

  /** Whatever is requested, and however often the controller restarts or loses power, no identity is
      ever executed twice. */
  lemma AtMostOnce(steps: seq<Step>)
    ensures DistinctKeys(After(INITIAL, steps).started, Itself)
  {
    RunFenced(INITIAL, steps);
  }

  /** A launched identity is never created again: while the controller runs, the same request is answered as
      existing and another as a conflict; after a restart both are conflicts. */
  lemma LaunchedAnswers(steps: seq<Step>, id: Key, fingerprint: string, disk: Disk)
    requires id in After(INITIAL, steps).started
    ensures var s := After(INITIAL, steps);
      PutReply(s, id, fingerprint, disk) == if id in s.runs && s.runs[id] == fingerprint then Existing else Conflict
  {
    RunFenced(INITIAL, steps);
  }

  /** The controller remembers what it launched until it restarts or loses power. */
  lemma {:induction false} Remembers(s: State, steps: seq<Step>, id: Key)
    requires id in s.runs && forall i :: 0 <= i < |steps| ==> !steps[i].Restart? && !steps[i].PowerLoss?
    ensures id in After(s, steps).runs && After(s, steps).runs[id] == s.runs[id]
  {
    if steps != [] {
      Remembers(s, steps[..|steps| - 1], id);
    }
  }

  ghost function Launches(s: State, id: Key): nat {
    multiset(s.started)[id]
  }

  /** A synced marker fences for good. */
  lemma {:induction false} DurableFences(s: State, steps: seq<Step>, id: Key)
    requires Fenced(s) && id in s.durable
    ensures Launches(After(s, steps), id) == Launches(s, id)
  {
    if steps != [] {
      var k := |steps| - 1;
      DurableFences(s, steps[..k], id);
      RunFenced(s, steps[..k]);
      assert id in After(s, steps[..k]).visible;
    }
  }

  /** So a release that wrote its own marker ends the identity: nothing can launch it afterwards. */
  lemma ReleaseFences(before: seq<Step>, id: Key, cleaned: bool, after: seq<Step>)
    requires id !in After(INITIAL, before).visible
    ensures var s := Next(After(INITIAL, before), Release(id, Synced, cleaned));
      Launches(After(s, after), id) == Launches(s, id)
  {
    RunFenced(INITIAL, before);
    StepFenced(After(INITIAL, before), Release(id, Synced, cleaned));
    DurableFences(Next(After(INITIAL, before), Release(id, Synced, cleaned)), after, id);
  }

  ghost predicate CanLaunch(s: State, id: Key) {
    exists steps: seq<Step> :: Launches(After(s, steps), id) > Launches(s, id)
  }

  /** A release may also be acknowledged over a marker that some earlier request left unsynced. After
      any acknowledged release, a later launch is possible exactly when the marker is not durable. */
  lemma AcknowledgedRelease(before: seq<Step>, id: Key, disk: Disk)
    requires ReleaseReply(After(INITIAL, before), id, disk, true) == Released
    ensures var s := Next(After(INITIAL, before), Release(id, disk, true));
      && (CanLaunch(s, id) <==> id !in s.durable)
      && (id !in s.durable <==> id in After(INITIAL, before).visible && id !in After(INITIAL, before).durable)
  {
    var s := Next(After(INITIAL, before), Release(id, disk, true));
    RunFenced(INITIAL, before);
    StepFenced(After(INITIAL, before), Release(id, disk, true));
    if id in s.durable {
      forall steps: seq<Step> ensures Launches(After(s, steps), id) == Launches(s, id) {
        DurableFences(s, steps, id);
      }
    } else {
      LostMarker(s, id);
    }
  }

  /** Losing power drops an unsynced marker, and the next request launches. */
  lemma LostMarker(s: State, id: Key)
    requires id !in s.durable
    ensures CanLaunch(s, id)
  {
    var lost := PowerLoss({});
    var again := Put(id, "", Synced);
    var steps := [lost, again];
    assert steps[..1] == [lost] && [lost][..0] == [];
    assert After(s, [lost]) == Next(s, lost);
    assert After(s, steps) == Next(Next(s, lost), again);
    assert Launches(After(s, steps), id) > Launches(s, id);
  }

  /** Such a state is reached by one request whose sync fails. */
  lemma UnfencedRelease(id: Key)
    ensures var before := [Put(id, "", SyncFails)];
      && ReleaseReply(After(INITIAL, before), id, Synced, true) == Released
      && CanLaunch(Next(After(INITIAL, before), Release(id, Synced, true)), id)
  {
    var before := [Put(id, "", SyncFails)];
    assert before[..0] == [];
    assert After(INITIAL, before) == Next(INITIAL, before[0]);
    AcknowledgedRelease(before, id, Synced);
  }
}
