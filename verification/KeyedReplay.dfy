/** A replay session seen as one state per symbol. The Binance and Bybit sessions keep
    dictionaries keyed by symbol and stop at the first exception; what one symbol's
    events do to another symbol's state is settled here once for both. */
module KeyedReplay {
  import opened Common

  function Get<S>(m: map<string, S>, k: string, init: S): S {
    if k in m then m[k] else init
  }

  /** Replay from the first event; the first raise ends it. */
  function Run<S, E>(init: S, step: (S, E) -> Result<S, ReplayError>, key: E -> string, events: seq<E>)
    : Result<map<string, S>, ReplayError>
  {
    if events == [] then Ok(map[])
    else
      var e := events[|events| - 1];
      match Run(init, step, key, events[..|events| - 1])
      case Err(x) => Err(x)
      case Ok(m) =>
        match step(Get(m, key(e), init), e)
        case Err(x) => Err(x)
        case Ok(s) => Ok(m[key(e) := s])
  }

  function Of<E>(events: seq<E>, key: E -> string, k: string): seq<E> {
    Filter(events, e => key(e) == k)
  }

  lemma RunSnoc<S, E>(init: S, step: (S, E) -> Result<S, ReplayError>, key: E -> string, events: seq<E>, e: E)
    ensures Run(init, step, key, events + [e]) ==
            match Run(init, step, key, events)
            case Err(x) => Err(x)
            case Ok(m) =>
              match step(Get(m, key(e), init), e)
              case Err(x) => Err(x)
              case Ok(s) => Ok(m[key(e) := s])
  {
    assert (events + [e])[..|events|] == events;
  }

  /** The first raise decides how the whole replay ends. */
  lemma {:induction false} RunError<S, E>(init: S, step: (S, E) -> Result<S, ReplayError>, key: E -> string,
                                          events: seq<E>, n: nat)
    requires n <= |events| && Run(init, step, key, events[..n]).Err?
    ensures Run(init, step, key, events) == Run(init, step, key, events[..n])
  {
    if n == |events| {
      assert events[..n] == events;
    } else {
      assert events[..|events| - 1][..n] == events[..n];
      RunError(init, step, key, events[..|events| - 1], n);
    }
  }

  /** Interference between symbols is impossible: the interleaved stream raises exactly
      when some symbol's own events raise, and otherwise every symbol ends in the state
      of replaying its own events alone. */
  lemma {:induction false} SymbolsDoNotInterfere<S, E>(init: S, step: (S, E) -> Result<S, ReplayError>,
                                                       key: E -> string, events: seq<E>)
    ensures Run(init, step, key, events).Ok? <==> forall k :: Run(init, step, key, Of(events, key, k)).Ok?
    ensures Run(init, step, key, events).Ok? ==>
              forall k ::
                Get(Run(init, step, key, events).value, k, init)
                == Get(Run(init, step, key, Of(events, key, k)).value, k, init)
  {
    if events == [] {
      forall k ensures Of(events, key, k) == [] {}
    } else {
      var front, e := events[..|events| - 1], events[|events| - 1];
      assert events == front + [e];
      var ke := key(e);
      SymbolsDoNotInterfere(init, step, key, front);
      forall k ensures Of(events, key, k) == if k == ke then Of(front, key, k) + [e] else Of(front, key, k) {
        FilterSnoc(front, e, x => key(x) == k);
      }
      RunSnoc(init, step, key, Of(front, key, ke), e);
      if Run(init, step, key, front).Err? {
        var k :| Run(init, step, key, Of(front, key, k)).Err?;
        assert Run(init, step, key, Of(events, key, k)).Err?;
      } else {
        var m := Run(init, step, key, front).value;
        assert Run(init, step, key, Of(front, key, ke)).Ok?;
        assert Get(m, ke, init) == Get(Run(init, step, key, Of(front, key, ke)).value, ke, init);
        if step(Get(m, ke, init), e).Err? {
          assert Run(init, step, key, Of(events, key, ke)).Err?;
        } else {
          forall k ensures Run(init, step, key, Of(events, key, k)).Ok? &&
              Get(Run(init, step, key, events).value, k, init)
              == Get(Run(init, step, key, Of(events, key, k)).value, k, init)
          {
            assert Run(init, step, key, Of(front, key, k)).Ok?;
          }
        }
      }
    }
  }
}
