/** Generations, stop sources and the cancellation registry. */
module Lifecycle {
  import opened Results

  type Id = string

  // ---------------------------------------------------------------- specification

  /** A registered request; `source` names its stop source, whose state tokens keep observing after removal. */
  datatype Entry = Entry(generation: nat, source: nat)

  /** Registered entries, the sources asked to stop so far, and the next unused source name. */
  datatype Registry = Registry(entries: map<Id, Entry>, requested: set<nat>, next: nat) {
    ghost predicate Consistent() {
      && (forall id :: id in entries ==> entries[id].source < next)
      && (forall i, j :: i in entries && j in entries && i != j ==> entries[i].source != entries[j].source)
      && (forall n :: n in requested ==> n < next)
    }

    predicate Stopped(id: Id)
      requires id in entries
    {
      entries[id].source in requested
    }

    function Register(id: Id, generation: nat): Registry {
      Registry(entries[id := Entry(generation, next)], requested, next + 1)
    }

    function Stop(ids: set<Id>): Registry {
      this.(requested := requested + (set id | id in ids && id in entries :: entries[id].source))
    }

    /** What a loop that has stopped exactly the entries in `done` knows about the stop set `now`. */
    ghost predicate StoppedExactly(done: set<Id>, now: set<nat>, owner: map<nat, Id>) {
      && requested <= now
      && (forall id :: id in entries ==> (entries[id].source in now <==> Stopped(id) || id in done))
      && (forall n :: n in now ==> n in requested
                                   || (n in owner && owner[n] in done && owner[n] in entries
                                       && entries[owner[n]].source == n))
    }

    lemma StopOneMore(done: set<Id>, now: set<nat>, owner: map<nat, Id>, id: Id)
      requires Consistent() && StoppedExactly(done, now, owner) && id in entries
      ensures StoppedExactly(done + {id}, now + {entries[id].source}, owner[entries[id].source := id])
    {
      var now', owner' := now + {entries[id].source}, owner[entries[id].source := id];
      forall i | i in entries ensures entries[i].source in now' <==> Stopped(i) || i in done + {id} {
      }
    }

    lemma CountOneMore(done: set<Id>, id: Id)
      requires id in entries && done <= entries.Keys && id !in done
      ensures |Unstopped(done + {id})| == |Unstopped(done)| + (if Stopped(id) then 0 else 1)
    {
      assert Unstopped(done + {id}) == Unstopped(done) + (if Stopped(id) then {} else {id});
    }

    lemma StopFromLoop(done: set<Id>, now: set<nat>, owner: map<nat, Id>)
      requires done <= entries.Keys && StoppedExactly(done, now, owner)
      ensures Stop(done) == this.(requested := now)
    {
      var r := Stop(done).requested;
      forall n | n in now ensures n in r {
      }
      forall n | n in r ensures n in now {
      }
      assert r == now;
    }

    /** The entries among `ids` whose stop has not been requested yet. */
    function Unstopped(ids: set<Id>): (r: set<Id>)
      requires ids <= entries.Keys
    {
      set id | id in ids && !Stopped(id)
    }

    function OfGeneration(generation: nat): set<Id> {
      set id | id in entries && entries[id].generation == generation
    }

    function Complete(id: Id): Registry {
      this.(entries := entries - {id})
    }
  }

  const EMPTY_REGISTRY := Registry(map[], {}, 0)

  // ---------------------------------------------------------------- the objects

  class GenerationState {
    var generation: nat

    constructor (initial: nat)
      ensures generation == initial
    {
      generation := initial;
    }

    method IsCurrent(g: nat) returns (r: bool)
      ensures r <==> g == generation
    {
      r := generation == g;
    }

    method Invalidate() returns (g: nat)
      modifies this
      ensures generation == old(generation) + 1 && g == generation
    {
      generation := generation + 1;
      g := generation;
    }
  }

  /**
    A stop source is a name here, and the state its tokens share is membership in `requested`; so a token goes on
    observing its source after the entry is gone, as the library's shared state does.
   */
  class CancellationRegistry {
    var entries: map<Id, Entry>
    var requested: set<nat>
    var next: nat

    ghost function View(): Registry
      reads this
    {
      Registry(entries, requested, next)
    }

    constructor ()
      ensures View() == EMPTY_REGISTRY
    {
      entries, requested, next := map[], {}, 0;
    }

    method RegisterRequest(request: Id, generation: nat) returns (token: Result<nat>)
      requires View().Consistent()
      modifies this
      ensures View().Consistent()
      ensures request == "" ==> token == Err(InvalidArgument)
      ensures request != "" && request in old(entries) ==> token == Err(DuplicateConflict)
      ensures request != "" && request !in old(entries) ==> token.Ok?
      ensures View() == if token.Ok? then old(View()).Register(request, generation) else old(View())
      ensures token.Ok? ==> entries[request].source == token.value && token.value !in requested
    {
      if request == "" {
        return Err(InvalidArgument);
      }
      if request in entries {
        return Err(DuplicateConflict);
      }
      token := Ok(next);
      entries := entries[request := Entry(generation, next)];
      next := next + 1;
    }

    /** True only for the call that is first to request the stop. */
    method Cancel(request: Id) returns (first: bool)
      modifies this
      ensures first <==> request in old(entries) && !old(View()).Stopped(request)
      ensures View() == old(View()).Stop({request})
    {
      if request in entries {
        first := entries[request].source !in requested;
        requested := requested + {entries[request].source};
      } else {
        first := false;
      }
      assert old(View()).Stop({request}).requested == requested;
    }

    method Token(request: Id) returns (token: Option<nat>)
      ensures token.None? <==> request !in entries
      ensures token.Some? ==> token.value == entries[request].source
    {
      if request in entries {
        token := Some(entries[request].source);
      } else {
        token := None;
      }
    }

    method CancelGeneration(generation: nat) returns (cancelled: nat)
      requires View().Consistent()
      modifies this`requested
      ensures View() == old(View()).Stop(old(View()).OfGeneration(generation))
      ensures cancelled == |old(View()).Unstopped(old(View()).OfGeneration(generation))|
    {
      ghost var before := View();
      ghost var chosen := before.OfGeneration(generation);
      ghost var done: set<Id>, owner: map<nat, Id> := {}, map[];
      cancelled := 0;
      var todo := entries.Keys;
      while todo != {}
        invariant todo <= entries.Keys && done !! todo && done <= chosen <= done + todo
        invariant before.StoppedExactly(done, requested, owner)
        invariant cancelled == |before.Unstopped(done)|
      {
        var request :| request in todo;
        todo := todo - {request};
        var entry := entries[request];
        if entry.generation == generation {
          before.CountOneMore(done, request);
          before.StopOneMore(done, requested, owner, request);
          if entry.source !in requested {
            cancelled := cancelled + 1;
          }
          requested := requested + {entry.source};
          done, owner := done + {request}, owner[entry.source := request];
        }
      }
      assert done == chosen;
      before.StopFromLoop(chosen, requested, owner);
    }

    method CancelAll() returns (cancelled: nat)
      requires View().Consistent()
      modifies this`requested
      ensures View() == old(View()).Stop(entries.Keys)
      ensures cancelled == |old(View()).Unstopped(entries.Keys)|
    {
      ghost var before := View();
      ghost var done: set<Id>, owner: map<nat, Id> := {}, map[];
      cancelled := 0;
      var todo := entries.Keys;
      while todo != {}
        invariant todo <= entries.Keys && done !! todo && done <= entries.Keys <= done + todo
        invariant before.StoppedExactly(done, requested, owner)
        invariant cancelled == |before.Unstopped(done)|
      {
        var request :| request in todo;
        todo := todo - {request};
        var entry := entries[request];
        before.CountOneMore(done, request);
        before.StopOneMore(done, requested, owner, request);
        if entry.source !in requested {
          cancelled := cancelled + 1;
        }
        requested := requested + {entry.source};
        done, owner := done + {request}, owner[entry.source := request];
      }
      assert done == entries.Keys;
      before.StopFromLoop(done, requested, owner);
    }

    method Complete(request: Id)
      modifies this
      ensures View() == old(View()).Complete(request)
    {
      entries := entries - {request};
    }
  }
}
