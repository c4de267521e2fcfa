/** The one-time seeding migration of the `ready` hook: every character actor
    whose `flags.dcc` lacks a field of the defaults gets the resolved record
    written back, once per world, gated by a persisted migration flag. */
module Seeding {
  import opened Values
  import opened Resolver

  /** An actor of the world collection: its id, its type and its
      `flags.dcc`, which may be absent. */
  datatype Actor = Actor(id: string, kind: string, flags: Option<Record>)

  /** One `actor.update({"flags.dcc": patch})` the pass issued. */
  datatype Write = Write(actorId: string, patch: Record)

  /** `getProperty(actor, "flags.dcc") ?? {}`. */
  function CurrentFlags(a: Actor): (r: Record)
    ensures a.flags.None? ==> r == map[]
    ensures a.flags.Some? ==> r == a.flags.value
  {
    OrEmpty(a.flags)
  }

  /** The record the pass computes for an actor. */
  function Merged(a: Actor, defaults: Record): (r: Record)
    ensures r.Keys == defaults.Keys + CurrentFlags(a).Keys
    ensures forall k :: k in CurrentFlags(a) ==> r[k] == CurrentFlags(a)[k]
    ensures forall k :: k in defaults && k !in CurrentFlags(a) ==> r[k] == defaults[k]
  {
    MergeObject(defaults, CurrentFlags(a))
  }

  /** The pass writes an actor when it is a character and its merged record
      differs from its current flags. */
  predicate NeedsWrite(a: Actor, defaults: Record)
    ensures NeedsWrite(a, defaults) <==> a.kind == "character" && !(defaults.Keys <= CurrentFlags(a).Keys)
  {
    MergeFixedPoint(defaults, CurrentFlags(a));
    a.kind == "character" && Merged(a, defaults) != CurrentFlags(a)
  }

  /** The host applies `actor.update({"flags.dcc": patch})` by laying the patch
      over the stored flags. */
  function AfterUpdate(a: Actor, patch: Record): (r: Actor)
    ensures r.id == a.id && r.kind == a.kind && r.flags.Some?
    ensures r.flags.value.Keys == CurrentFlags(a).Keys + patch.Keys
    ensures forall k :: k in patch ==> r.flags.value[k] == patch[k]
    ensures forall k :: k in CurrentFlags(a) && k !in patch ==> r.flags.value[k] == CurrentFlags(a)[k]
  {
    a.(flags := Some(MergeObject(CurrentFlags(a), patch)))
  }

  /** An actor after the pass has handled it. */
  function Seeded(a: Actor, defaults: Record): (r: Actor)
    ensures r.id == a.id && r.kind == a.kind
    ensures NeedsWrite(a, defaults) ==> r.flags == Some(Merged(a, defaults))
    ensures !NeedsWrite(a, defaults) ==> r == a
  {
    PatchWithMergedReplaces(defaults, CurrentFlags(a));
    if NeedsWrite(a, defaults) then AfterUpdate(a, Merged(a, defaults)) else a
  }

  /** The collection after the first `k` actors have been handled: every
      actor keeps its id and type, the handled ones need no further write and
      the others are as they were. */
  function SeedPrefix(actors: seq<Actor>, defaults: Record, k: nat): (r: seq<Actor>)
    ensures |r| == |actors|
    ensures forall j :: 0 <= j < |actors| ==> r[j].id == actors[j].id && r[j].kind == actors[j].kind
    ensures forall j :: 0 <= j < k && j < |actors| ==> !NeedsWrite(r[j], defaults)
    ensures forall j :: k <= j < |actors| ==> r[j] == actors[j]
  {
    seq(|actors|, j requires 0 <= j < |actors| => if j < k then Seeded(actors[j], defaults) else actors[j])
  }

  /** The writes the pass issues over `actors`, in iteration order. */
  function Writes(actors: seq<Actor>, defaults: Record): (w: seq<Write>)
    ensures |w| <= |actors|
    ensures forall i :: 0 <= i < |w| ==> defaults.Keys <= w[i].patch.Keys
  {
    if actors == [] then []
    else
      var last := actors[|actors| - 1];
      Writes(actors[..|actors| - 1], defaults) +
      (if NeedsWrite(last, defaults) then [Write(last.id, Merged(last, defaults))] else [])
  }

  /** The write for this actor is issued and rejected by the host. */
  predicate WriteFails(a: Actor, defaults: Record, failing: set<string>)
  {
    NeedsWrite(a, defaults) && a.id in failing
  }

  /** The index at which the pass stops: the first actor whose write is
      rejected, or the end of the collection. */
  function StopIndex(actors: seq<Actor>, defaults: Record, failing: set<string>): (k: nat)
    ensures k <= |actors|
    ensures forall j :: 0 <= j < k ==> !WriteFails(actors[j], defaults, failing)
    ensures k < |actors| ==> WriteFails(actors[k], defaults, failing)
  {
    if actors == [] then 0
    else if WriteFails(actors[0], defaults, failing) then 0
    else 1 + StopIndex(actors[1..], defaults, failing)
  }

  /** The world state the migration touches: the actor collection, the stored
      defaults setting, the persisted migration flag and the updates issued. */
  class World {
    var actors: seq<Actor>
    var storedDefaults: Option<Record>
    var migrated: bool
    var log: seq<Write>

    constructor (actors: seq<Actor>, storedDefaults: Option<Record>, migrated: bool)
      ensures this.actors == actors && this.storedDefaults == storedDefaults
      ensures this.migrated == migrated && log == []
    {
      this.actors := actors;
      this.storedDefaults := storedDefaults;
      this.migrated := migrated;
      log := [];
    }

    /** The seeding block of the `ready` hook. The ids in `failing` are the
        actors whose update the host rejects; a rejection ends the pass and
        leaves the flag unset (`ok` is false). */
    method Ready(failing: set<string>) returns (ok: bool)
      modifies this
      ensures storedDefaults == old(storedDefaults)
      ensures old(migrated) ==> ok && migrated && actors == old(actors) && log == old(log)
      ensures !old(migrated) ==>
        ok == (StopIndex(old(actors), GetDccDefaults(storedDefaults), failing) == |old(actors)|)
      ensures !old(migrated) ==> migrated == ok
      ensures !old(migrated) ==>
        actors == SeedPrefix(old(actors), GetDccDefaults(storedDefaults),
                             StopIndex(old(actors), GetDccDefaults(storedDefaults), failing))
      ensures !old(migrated) ==>
        log == old(log) + Writes(old(actors)[..StopIndex(old(actors), GetDccDefaults(storedDefaults), failing)],
                                 GetDccDefaults(storedDefaults))
    {
      if migrated {
        return true;
      }
      var defaults := GetDccDefaults(storedDefaults);
      ghost var start, log0 := actors, log;
      var i := 0;
      while i < |actors|
        invariant |actors| == |start| && 0 <= i <= |start|
        invariant actors == SeedPrefix(start, defaults, i)
        invariant log == log0 + Writes(start[..i], defaults)
        invariant i <= StopIndex(start, defaults, failing)
        invariant !migrated && storedDefaults == old(storedDefaults)
      {
        SeedStep(start, defaults, failing, i);
        var rejected := SeedActor(i, defaults, failing);
        if rejected {
          return false;
        }
        i := i + 1;
      }
      StopsAt(start, defaults, failing, i);
      assert start[..i] == start;
      migrated := true;
      ok := true;
    }

    /** One iteration of the seeding loop, on actor `i`: skip it unless it is
        a character, compute its merged record, and update it when that
        differs from its current flags. `rejected` tells that the host
        rejected the update, which leaves the actor and the log as they were. */
    method SeedActor(i: nat, defaults: Record, failing: set<string>) returns (rejected: bool)
      requires i < |actors|
      modifies this
      ensures storedDefaults == old(storedDefaults) && migrated == old(migrated)
      ensures rejected == WriteFails(old(actors)[i], defaults, failing)
      ensures rejected ==> actors == old(actors) && log == old(log)
      ensures !rejected ==> actors == old(actors)[i := Seeded(old(actors)[i], defaults)]
      ensures !rejected ==>
        log == old(log) + (if NeedsWrite(old(actors)[i], defaults)
                           then [Write(old(actors)[i].id, Merged(old(actors)[i], defaults))] else [])
    {
      var actor := actors[i];
      if actor.kind != "character" {
        return false;
      }
      var current := CurrentFlags(actor);
      var merged := MergeObject(defaults, current);
      if current != merged {
        if actor.id in failing {
          return true;
        }
        actors := actors[i := AfterUpdate(actor, merged)];
        log := log + [Write(actor.id, merged)];
      }
      rejected := false;
    }
  }

  /** Handling actor `i` of a pass that has not stopped before it: the
      handled prefix grows by that actor, the writes by its write, and the
      pass stops at `i` exactly when that write is rejected. */
  lemma SeedStep(actors: seq<Actor>, defaults: Record, failing: set<string>, i: nat)
    requires i < |actors| && i <= StopIndex(actors, defaults, failing)
    ensures SeedPrefix(actors, defaults, i)[i] == actors[i]
    ensures SeedPrefix(actors, defaults, i + 1) == SeedPrefix(actors, defaults, i)[i := Seeded(actors[i], defaults)]
    ensures Writes(actors[..i + 1], defaults) == Writes(actors[..i], defaults) +
      (if NeedsWrite(actors[i], defaults) then [Write(actors[i].id, Merged(actors[i], defaults))] else [])
    ensures WriteFails(actors[i], defaults, failing) ==> StopIndex(actors, defaults, failing) == i
    ensures !WriteFails(actors[i], defaults, failing) ==> i + 1 <= StopIndex(actors, defaults, failing)
  {
    assert actors[..i + 1][..i] == actors[..i];
    var before, after := SeedPrefix(actors, defaults, i), SeedPrefix(actors, defaults, i + 1);
    assert after == before[i := Seeded(actors[i], defaults)] by {
      forall j | 0 <= j < |actors| ensures after[j] == before[i := Seeded(actors[i], defaults)][j] {
      }
    }
  }

  /** The stop index is the first rejected write, or the end. */
  lemma StopsAt(actors: seq<Actor>, defaults: Record, failing: set<string>, i: nat)
    requires i <= |actors|
    requires forall j :: 0 <= j < i ==> !WriteFails(actors[j], defaults, failing)
    requires i < |actors| ==> WriteFails(actors[i], defaults, failing)
    ensures StopIndex(actors, defaults, failing) == i
  {
  }

  /** Every write names an actor of the collection that is a character and
      whose flags differ from the merged record, and writes that whole merged
      record, which holds every field of the defaults. */
  lemma {:induction false} WritesTargetCharacters(actors: seq<Actor>, defaults: Record)
    ensures forall w :: w in Writes(actors, defaults) ==>
      exists j :: 0 <= j < |actors| && actors[j].id == w.actorId && actors[j].kind == "character"
        && w.patch == Merged(actors[j], defaults) && w.patch != CurrentFlags(actors[j])
        && defaults.Keys <= w.patch.Keys
  {
    if actors != [] {
      var n := |actors| - 1;
      var init := actors[..n];
      WritesTargetCharacters(init, defaults);
      forall w | w in Writes(actors, defaults)
        ensures exists j :: (0 <= j < |actors| && actors[j].id == w.actorId && actors[j].kind == "character"
          && w.patch == Merged(actors[j], defaults) && w.patch != CurrentFlags(actors[j])
          && defaults.Keys <= w.patch.Keys)
      {
        if w in Writes(init, defaults) {
          var j :| 0 <= j < |init| && init[j].id == w.actorId && init[j].kind == "character"
            && w.patch == Merged(init[j], defaults) && w.patch != CurrentFlags(init[j])
            && defaults.Keys <= w.patch.Keys;
          assert actors[j] == init[j];
        } else {
          assert w == Write(actors[n].id, Merged(actors[n], defaults));
        }
      }
    }
  }

  /** Writes are issued in iteration order: those of a prefix of the
      collection are a prefix of those of the whole collection. */
  lemma {:induction false} WritesPrefix(actors: seq<Actor>, defaults: Record, k: nat)
    requires k <= |actors|
    ensures Writes(actors[..k], defaults) <= Writes(actors, defaults)
    decreases |actors|
  {
    if k < |actors| {
      var n := |actors| - 1;
      assert actors[..n][..k] == actors[..k];
      WritesPrefix(actors[..n], defaults, k);
    } else {
      assert actors[..k] == actors;
    }
  }

  /** No actor that needs no write gives a write. */
  lemma {:induction false} NoWritesWhenNoneNeeded(actors: seq<Actor>, defaults: Record)
    requires forall j :: 0 <= j < |actors| ==> !NeedsWrite(actors[j], defaults)
    ensures Writes(actors, defaults) == []
  {
    if actors != [] {
      NoWritesWhenNoneNeeded(actors[..|actors| - 1], defaults);
    }
  }

  /** An actor the pass has handled needs no further write. */
  lemma SeededIsStable(a: Actor, defaults: Record)
    ensures !NeedsWrite(Seeded(a, defaults), defaults)
  {
  }

  /** After a pass stopped at `k` (a rejection, or the end), rerunning from
      scratch issues no write for the actors already handled: the writes of
      the rerun are those of the actors from `k` on. */
  lemma {:induction false} RetryAfterAbort(actors: seq<Actor>, defaults: Record, k: nat)
    requires k <= |actors|
    ensures var seeded := SeedPrefix(actors, defaults, k);
      && Writes(seeded[..k], defaults) == []
      && Writes(seeded, defaults) == Writes(actors[k..], defaults)
  {
    var seeded := SeedPrefix(actors, defaults, k);
    NoWritesWhenNoneNeeded(seeded[..k], defaults);
    WritesSplit(seeded, defaults, k);
    assert seeded[k..] == actors[k..];
  }

  /** The writes of a collection are those of its first `k` actors followed by
      those of the rest. */
  lemma {:induction false} WritesSplit(actors: seq<Actor>, defaults: Record, k: nat)
    requires k <= |actors|
    ensures Writes(actors, defaults) == Writes(actors[..k], defaults) + Writes(actors[k..], defaults)
    decreases |actors|
  {
    if k == |actors| {
      assert actors[..k] == actors;
      assert actors[k..] == [];
    } else {
      var n := |actors| - 1;
      WritesSplit(actors[..n], defaults, k);
      assert actors[..n][..k] == actors[..k];
      assert actors[k..][..|actors[k..]| - 1] == actors[..n][k..];
      assert actors[k..][|actors[k..]| - 1] == actors[n];
    }
  }

  /** Every character that needs a write has its write, with the whole merged
      record, among the writes of the pass. */
  lemma {:induction false} WritesComplete(actors: seq<Actor>, defaults: Record)
    ensures forall j :: 0 <= j < |actors| && NeedsWrite(actors[j], defaults) ==>
      Write(actors[j].id, Merged(actors[j], defaults)) in Writes(actors, defaults)
  {
    if actors != [] {
      var n := |actors| - 1;
      WritesComplete(actors[..n], defaults);
      forall j | 0 <= j < |actors| && NeedsWrite(actors[j], defaults)
        ensures Write(actors[j].id, Merged(actors[j], defaults)) in Writes(actors, defaults)
      {
        if j < n {
          assert actors[..n][j] == actors[j];
        }
      }
    }
  }

  /** A second pass over a fully seeded collection issues no write, whichever
      writes the host would reject, and changes no actor. */
  lemma SecondPassNoWrites(actors: seq<Actor>, defaults: Record, failing: set<string>)
    ensures var seeded := SeedPrefix(actors, defaults, |actors|);
      && Writes(seeded, defaults) == []
      && StopIndex(seeded, defaults, failing) == |seeded|
      && SeedPrefix(seeded, defaults, |seeded|) == seeded
  {
    var seeded := SeedPrefix(actors, defaults, |actors|);
    NoWritesWhenNoneNeeded(seeded, defaults);
    StopsAt(seeded, defaults, failing, |seeded|);
  }

  /** Actors that are not characters are never changed by the pass. */
  lemma NonCharactersUntouched(actors: seq<Actor>, defaults: Record, k: nat)
    ensures forall j :: 0 <= j < |actors| && actors[j].kind != "character" ==>
      SeedPrefix(actors, defaults, k)[j] == actors[j]
  {
  }

  /** An empty collection gives no write and the pass completes. */
  lemma EmptyCollection(defaults: Record, failing: set<string>)
    ensures Writes([], defaults) == [] && StopIndex([], defaults, failing) == 0
  {
  }
}
