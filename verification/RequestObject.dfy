/** The object that `Sn` returns, as far as requests go: the maps and timers that its handlers update. */
module RequestObject {
  import T = TtlMap
  import opened Requests

  class Sn {
    var now: int
    var responseUUIDMapping: map<Id, Pending>
    var timers: map<nat, ReqTimer>
    var created: nat
    const timedOutUUIDMapping: T.TTLMap<TimedOut>
    ghost var sent: map<Id, Sent>
    ghost var timeoutAt: map<Id, int>
    ghost var calls: seq<Call>

    ghost function View(): State
      reads this, timedOutUUIDMapping
    {
      State(now, responseUUIDMapping, timers, created, timedOutUUIDMapping.View(), sent, timeoutAt, calls)
    }

    constructor (now: int)
      ensures View() == Init(now) && fresh(timedOutUUIDMapping)
    {
      this.now := now;
      responseUUIDMapping, timers, created := map[], map[], 0;
      timedOutUUIDMapping := new T.TTLMap();
      sent, timeoutAt, calls := map[], map[], [];
    }

    method SetTimeout(id: Id, due: int) returns (timer: nat)
      modifies this`timers, this`created
      ensures timer == old(created) && created == timer + 1 && timers == old(timers)[timer := ReqTimer(id, due)]
    {
      timer := created;
      timers := timers[timer := ReqTimer(id, due)];
      created := created + 1;
    }

    /** `_sendAug`. The native send has run when the timer is set; a throw leaves no trace here. */
    method SendAug(spec: SendSpec)
      modifies this
      ensures View() == DoSend(old(View()), spec)
    {
      sent := sent[spec.id := Sent(now, spec.timeout, !spec.throws && spec.timeout != 0)];
      if spec.throws {
        return;
      }
      if spec.timeout != 0 {
        var timer := SetTimeout(spec.id, now + T.Delay(spec.timeout));
        responseUUIDMapping := responseUUIDMapping[spec.id := Pending(timer, now)];
      }
    }

    /** A callback of the caller runs, and sends what it sends. */
    method Callback(sends: seq<SendSpec>)
      modifies this
      ensures View() == DoSends(old(View()), sends)
    {
      var i := 0;
      while i < |sends|
        invariant i <= |sends|
        invariant DoSends(View(), sends[i..]) == DoSends(old(View()), sends)
      {
        assert sends[i..][0] == sends[i] && sends[i..][1..] == sends[i + 1..];
        SendAug(sends[i]);
        i := i + 1;
      }
    }

    /** The timeout timer's callback. */
    method TimeoutTimer(timer: nat, sends: seq<SendSpec>)
      requires Enabled(View(), TimerFires(timer, sends))
      modifies this, timedOutUUIDMapping
      ensures View() == Next(old(View()), TimerFires(timer, sends))
    {
      hide DoSends, Fresh, T.Set, T.Delay;
      var id := timers[timer].id;
      timers := timers - {timer};
      var createdAt := if id in responseUUIDMapping then responseUUIDMapping[id].timestamp else 0;
      timedOutUUIDMapping.Put(id, TimedOut(now, createdAt), RETAIN_TIMED_OUT_MS, now);
      responseUUIDMapping := responseUUIDMapping - {id};
      timeoutAt := timeoutAt[id := now];
      calls := calls + [OnTimeout(id)];
      Callback(sends);
    }

    /** `extractUUIDHandleData`; the callback is the waiting one, or else handleData. An inherited name is
        found in the map without being stored there, and calling what it has for a callback throws. */
    method ExtractUUIDHandleData(id: Id, sends: seq<SendSpec>) returns (threw: bool)
      requires Enabled(View(), MessageArrives(id, sends))
      modifies this, timedOutUUIDMapping
      ensures View() == Next(old(View()), MessageArrives(id, sends))
      ensures threw <==> old(Throws(View(), id))
    {
      threw := false;
      hide Inherited, DoSends, Fresh, T.Delete, T.AfterGet, T.Lookup;
      if id in responseUUIDMapping {
        var handle := responseUUIDMapping[id];
        responseUUIDMapping := responseUUIDMapping - {id};
        timers := timers - {handle.timer};
        calls := calls + [OnResponse(id)];
      } else if Inherited(id) {
        NoSends(View());
        return true;
      } else {
        var entry := timedOutUUIDMapping.Get(id, now);
        if entry.Some? {
          timedOutUUIDMapping.Remove(id);
        }
        calls := calls + [HandleData(id, entry.Some?)];
      }
      Callback(sends);
    }

    /** An expiry timer of the map of timed-out ids. */
    method ExpiryTimer(timer: nat)
      requires Enabled(View(), ExpiryTimerFires(timer))
      modifies this`calls, timedOutUUIDMapping
      ensures View() == Next(old(View()), ExpiryTimerFires(timer))
    {
      var key, value := timedOutUUIDMapping.Expire(timer);
      calls := calls + [OnExpiry(key)];
    }
  }
}
