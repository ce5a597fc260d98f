/** The scheduler as the object of app/account_workers.py, whose methods update its fields. */
module SchedulerService {
  import opened Common
  import opened TurnScheduler

  class BackgroundScheduler {
    var ready: seq<Entry>
    var registrations: set<string>
    var active: Option<string>
    var turns: seq<Turn>
    var granted: seq<TurnId>

    ghost function View(): State
      reads this
    {
      State(ready, registrations, active, turns, granted)
    }

    ghost predicate Valid()
      reads this
    {
      Inv(View())
    }

    constructor ()
      ensures Valid() && View() == INITIAL
    {
      ready, registrations, active, turns, granted := [], {}, None, [], [];
      new;
      hide Inv;
      InitialInv();
    }

    method Advance()
      requires Core(View())
      modifies this
      ensures Valid() && View() == TurnScheduler.Advance(old(View()))
    {
      hide Core, QueueOk, LabelsOk, ActiveOk, WaitsOk, Inv;
      AdvanceKeepsCore(View());
      assert Known(View()) by { CoreKnows(View()); }
      while active.None? && ready != []
        invariant Known(View())
        invariant TurnScheduler.Advance(View()) == TurnScheduler.Advance(old(View()))
        decreases |ready|
      {
        var e := ready[0];
        assert e in View().ready;
        ready := ready[1..];
        if turns[e.turn].future.Cancelled? {
          continue;
        }
        active := Some(e.name);
        turns := turns[e.turn := turns[e.turn].(future := Set)];
        granted := granted + [e.turn];
      }
    }

    /** turn up to its await. */
    method Enter(name: string) returns (r: Registration)
      requires Valid()
      modifies this
      ensures Valid() && (View(), r) == Register(old(View()), name)
    {
      hide Core, QueueOk, LabelsOk, ActiveOk, WaitsOk;
      RegisterKeepsInv(View(), name);
      CoreKnows(View());
      if name in registrations {
        return AlreadyRegistered;
      }
      if |registrations| >= MAX_TYPES {
        return TooMany;
      }
      JoinedKeepsCore(View(), name);
      r := Registered(|turns|);
      registrations, ready := registrations + {name}, ready + [Entry(name, |turns|)];
      turns := turns + [Turn(name, Pending, false, |granted|)];
      Advance();
    }

    /** A task that awaits its future is cancelled. */
    method CancelWaiter(t: TurnId)
      requires Valid() && t < |turns| && turns[t].future.Pending?
      modifies this
      ensures Valid() && View() == TurnScheduler.CancelWaiter(old(View()), t)
    {
      hide Core;
      CoreKnows(View());
      CancelKeepsInv(View(), t);
      turns := turns[t := turns[t].(future := Cancelled)];
    }

    /** The finally block of turn. */
    method Leave(t: TurnId)
      requires Valid() && Live(View(), t) && !turns[t].future.Pending?
      modifies this
      ensures Valid() && View() == Finish(old(View()), t)
    {
      hide Core, Without;
      CoreKnows(View());
      EndedKeepsCore(View(), t);
      var name := turns[t].name;
      turns := turns[t := turns[t].(ended := true)];
      registrations := registrations - {name};
      if active == Some(name) {
        active := None;
      } else {
        ready := Without(ready, t);
      }
      Advance();
    }
  }
}
