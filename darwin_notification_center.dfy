/** The Darwin notification bus between the app and the root helper
    (Noti5/Services/DarwinNotificationCenter.swift).  A registered callback is
    named by what it does; posting records the name on the bus. */
module Bus {
  import opened Wrappers

  const Matched: string := "com.noti5.matched"
  const RulesUpdated: string := "com.noti5.rules.updated"
  const Start: string := "com.noti5.start"
  const Stop: string := "com.noti5.stop"
  const Heartbeat: string := "com.noti5.heartbeat"

  /** The closures startListening registers (one runs checkPendingNotifications,
      the other helperDidSendHeartbeat), and any other one. */
  datatype Callback = OnMatched | OnHeartbeat | Custom(tag: nat)

  /** The callback invoked for a delivered name, if one is registered. */
  function Dispatch(callbacks: map<string, Callback>, name: string): (r: Option<Callback>)
    ensures r.Some? <==> name in callbacks
    ensures r.Some? ==> r.value == callbacks[name]
  {
    if name in callbacks then Some(callbacks[name]) else None
  }

  /** The registry after startListening. */
  function Listening(callbacks: map<string, Callback>): map<string, Callback> {
    callbacks[Matched := OnMatched][Heartbeat := OnHeartbeat]
  }

  /** The registry after stopListening. */
  function Stopped(callbacks: map<string, Callback>): map<string, Callback> {
    callbacks - {Matched, Heartbeat}
  }

  /** The five names are pairwise different. */
  lemma NamesDistinct()
    ensures |{Matched, RulesUpdated, Start, Stop, Heartbeat}| == 5
  {
    assert Matched[10] == 'm' && RulesUpdated[10] == 'r' && Start[10] == 's' && Heartbeat[10] == 'h';
    assert Start[12] == 'a' && Stop[12] == 'o';
  }

  /** While listening, a matched post runs checkPendingNotifications and a
      heartbeat runs helperDidSendHeartbeat; every other name is handled as
      before.  After stopListening neither is handled, whatever came before. */
  lemma ListeningDispatch(callbacks: map<string, Callback>, other: string)
    requires other != Matched && other != Heartbeat
    ensures Dispatch(Listening(callbacks), Matched) == Some(OnMatched)
    ensures Dispatch(Listening(callbacks), Heartbeat) == Some(OnHeartbeat)
    ensures Dispatch(Listening(callbacks), other) == Dispatch(callbacks, other)
    ensures Dispatch(Stopped(Listening(callbacks)), Matched).None?
    ensures Dispatch(Stopped(Listening(callbacks)), Heartbeat).None?
    ensures Dispatch(Stopped(callbacks), other) == Dispatch(callbacks, other)
  {
    NamesDistinct();
  }

  /** Stopping forgets what listening registered: listening then stopping is
      the same as stopping. */
  lemma StopUndoesListening(callbacks: map<string, Callback>)
    ensures Stopped(Listening(callbacks)) == Stopped(callbacks)
  {
    NamesDistinct();
    assert forall k :: k in Stopped(Listening(callbacks)) <==> k in Stopped(callbacks);
  }

  class DarwinNotificationCenter {
    /** `callbacks`, keyed by notification name. */
    var callbacks: map<string, Callback>
    /** Every name this process has posted, oldest first. */
    var posted: seq<string>

    constructor ()
      ensures callbacks == map[] && posted == []
    {
      callbacks := map[];
      posted := [];
    }

    /** post(_:). */
    method Post(name: string)
      modifies this
      ensures posted == old(posted) + [name]
      ensures callbacks == old(callbacks)
    {
      posted := posted + [name];
    }

    /** observe(_:callback:): a later registration for a name replaces the
        earlier one. */
    method Observe(name: string, callback: Callback)
      modifies this
      ensures callbacks == old(callbacks)[name := callback]
      ensures posted == old(posted)
    {
      callbacks := callbacks[name := callback];
    }

    /** removeObserver(_:). */
    method RemoveObserver(name: string)
      modifies this
      ensures callbacks == old(callbacks) - {name}
      ensures posted == old(posted)
    {
      callbacks := callbacks - {name};
    }

    /** handleNotification(_:): the callback to run on the main queue. */
    method HandleNotification(name: string) returns (callback: Option<Callback>)
      ensures callback == Dispatch(callbacks, name)
    {
      if name in callbacks {
        callback := Some(callbacks[name]);
      } else {
        callback := None;
      }
    }

    /** startListening(). */
    method StartListening()
      modifies this
      ensures callbacks == Listening(old(callbacks))
      ensures posted == old(posted)
    {
      Observe(Matched, OnMatched);
      Observe(Heartbeat, OnHeartbeat);
    }

    /** stopListening(). */
    method StopListening()
      modifies this
      ensures callbacks == Stopped(old(callbacks))
      ensures posted == old(posted)
    {
      RemoveObserver(Matched);
      RemoveObserver(Heartbeat);
      assert callbacks == old(callbacks) - {Matched} - {Heartbeat};
    }

    method NotifyRulesUpdated()
      modifies this
      ensures posted == old(posted) + [RulesUpdated]
      ensures callbacks == old(callbacks)
    {
      Post(RulesUpdated);
    }

    method NotifyStart()
      modifies this
      ensures posted == old(posted) + [Start]
      ensures callbacks == old(callbacks)
    {
      Post(Start);
    }

    method NotifyStop()
      modifies this
      ensures posted == old(posted) + [Stop]
      ensures callbacks == old(callbacks)
    {
      Post(Stop);
    }
  }
}
