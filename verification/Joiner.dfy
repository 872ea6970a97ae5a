/** The joiner object of src/join.c: two tables and the counters, proved against JoinSpec. */
module JoinerObject {
  import opened Records
  import opened Waiting
  import opened JoinSpec
  import opened JoinTable

  /** What an arrival does to the joiner, in one term. */
  /** k is j after t was added, field by field. */
  ghost predicate Added(j: Joiner, k: Joiner, t: Rec) {
    && k.targets == Push(j.targets, t, j.maxPerKey) && k.hosts == j.hosts && k.maxPerKey == j.maxPerKey
    && k.st == j.st.(added := j.st.added + 1, evicted := j.st.evicted + |Dropped(j.targets, t, j.maxPerKey)|)
  }

  lemma AddIs(j: Joiner, k: Joiner, t: Rec)
    requires Added(j, k, t)
    ensures k == After(j, Op.AddTarget(t))
  {
  }

  lemma HostIs(j: Joiner, h: Rec)
    ensures After(j, Op.HostArrives(h)) ==
            if First(j.targets, IdIs(h.id)).Some? then
              j.(targets := RemoveFirst(j.targets, IdIs(h.id)), st := j.st.(matched := j.st.matched + 1))
            else
              j.(hosts := Push(j.hosts, h, j.maxPerKey),
                 st := j.st.(unmatched := j.st.unmatched + |Dropped(j.hosts, h, j.maxPerKey)|))
  {
  }

  lemma TargetIs(j: Joiner, t: Rec)
    ensures After(j, Op.TargetArrives(t)) ==
            if First(j.hosts, IdIs(t.id)).Some? then
              j.(hosts := RemoveFirst(j.hosts, IdIs(t.id)),
                 st := j.st.(added := j.st.added + 1, matched := j.st.matched + 1))
            else After(j, Op.AddTarget(t))
  {
  }

  lemma MatchIs(j: Joiner, h: Rec)
    ensures After(j, Op.Match(h)) ==
            if First(j.targets, IdIs(h.id)).Some? then
              j.(targets := RemoveFirst(j.targets, IdIs(h.id)), st := j.st.(matched := j.st.matched + 1))
            else j.(st := j.st.(unmatched := j.st.unmatched + 1))
  {
  }

  lemma AgeingIs(j: Joiner, before: int)
    ensures After(j, Op.Release(before)) ==
            j.(hosts := Filter(j.hosts, Not(Before(before))),
               st := j.st.(unmatched := j.st.unmatched + |Filter(j.hosts, Before(before))|))
    ensures After(j, Op.Expire(before)) ==
            j.(targets := Filter(j.targets, Not(Before(before))),
               st := j.st.(expired := j.st.expired + |Filter(j.targets, Before(before))|))
  {
  }

  class NtpJoiner {
    const targets: Table
    const hosts: Table
    const maxPerKey: nat
    var st: Stats

    ghost var Repr: set<object>

    ghost predicate Valid()
      reads this`Repr, Repr - {this}
    {
      && this in Repr && targets in Repr && hosts in Repr
      && targets.Repr <= Repr && hosts.Repr <= Repr && this !in targets.Repr && this !in hosts.Repr && Apart()
    }

    /** The two tables are in order and share nothing. */
    ghost predicate Apart()
      reads targets, targets.Repr, hosts, hosts.Repr
    {
      && targets.Repr !! hosts.Repr && this !in targets.Repr && this !in hosts.Repr
      && targets.Valid() && hosts.Valid()
      && targets.maxPerKey == maxPerKey == hosts.maxPerKey
    }

    ghost method Widen()
      requires this in Repr && targets in Repr && hosts in Repr && Apart()
      modifies this`Repr
      ensures Valid() && Repr == old(Repr) + targets.Repr + hosts.Repr
    {
      Repr := Repr + targets.Repr + hosts.Repr;
    }

    ghost function View(): Joiner
      reads this, targets, hosts
    {
      Joiner(targets.queue, hosts.queue, maxPerKey, st)
    }

    constructor (maxPerKey: nat)
      ensures Valid() && fresh(Repr) && View() == NewJoiner(maxPerKey)
    {
      var t, h := TwoTables(maxPerKey);
      targets, hosts := t, h;
      this.maxPerKey, st := maxPerKey, NO_STATS;
      Repr := {this, t, h};
      new;
      Widen();
    }

    static method TwoTables(maxPerKey: nat) returns (t: Table, h: Table)
      ensures t.Valid() && t.queue == [] && t.maxPerKey == maxPerKey && fresh(t.Repr)
      ensures h.Valid() && h.queue == [] && h.maxPerKey == maxPerKey && fresh(h.Repr)
      ensures t.Repr !! h.Repr
    {
      t := new Table(maxPerKey);
      h := new Table(maxPerKey);
    }

    method Count(s: Stats)
      requires Valid()
      modifies this`st
      ensures Valid() && View() == old(View()).(st := s)
    {
      st := s;
    }

    method PushTarget(t: Rec) returns (dropped: bool)
      requires Valid()
      modifies this`Repr, targets.Repr
      ensures Valid() && fresh(Repr - old(Repr))
      ensures View() == old(View()).(targets := Push(old(View()).targets, t, maxPerKey))
      ensures |Dropped(old(View()).targets, t, maxPerKey)| == if dropped then 1 else 0
    {
      DroppedOne(targets.queue, t, maxPerKey);
      dropped := targets.Push(t);
      Widen();
    }

    method WaitTarget(t: Rec)
      requires Valid()
      modifies this`Repr, this`st, targets.Repr
      ensures Valid() && fresh(Repr - old(Repr))
      ensures Added(old(View()), View(), t)
    {
      ghost var j := View();
      var dropped := PushTarget(t);
      ghost var q := View().targets;
      Count(st.(evicted := st.evicted + (if dropped then 1 else 0), added := st.added + 1));
      assert View().targets == q && View().hosts == j.hosts;
    }

    method PushHost(h: Rec) returns (dropped: bool)
      requires Valid()
      modifies this`Repr, hosts.Repr
      ensures Valid() && fresh(Repr - old(Repr))
      ensures View() == old(View()).(hosts := Push(old(View()).hosts, h, maxPerKey))
      ensures |Dropped(old(View()).hosts, h, maxPerKey)| == if dropped then 1 else 0
    {
      DroppedOne(hosts.queue, h, maxPerKey);
      dropped := hosts.Push(h);
      Widen();
    }

    method TakeTarget(id: CmdId) returns (out: Option<Rec>)
      requires Valid()
      modifies this`Repr, targets.Repr
      ensures Valid() && Repr == old(Repr)
      ensures targets.Repr == old(targets.Repr) && hosts.Repr == old(hosts.Repr)
      ensures out == First(old(View()).targets, IdIs(id))
      ensures View() == if out.Some? then old(View()).(targets := RemoveFirst(old(View()).targets, IdIs(id)))
                        else old(View())
    {
      out := targets.Take(id);
      if out == None { RemoveNothing(old(targets.queue), IdIs(id)); }
    }

    method TakeHost(id: CmdId) returns (out: Option<Rec>)
      requires Valid()
      modifies this`Repr, hosts.Repr
      ensures Valid() && Repr == old(Repr)
      ensures targets.Repr == old(targets.Repr) && hosts.Repr == old(hosts.Repr)
      ensures out == First(old(View()).hosts, IdIs(id))
      ensures View() == if out.Some? then old(View()).(hosts := RemoveFirst(old(View()).hosts, IdIs(id)))
                        else old(View())
    {
      out := hosts.Take(id);
      if out == None { RemoveNothing(old(hosts.queue), IdIs(id)); }
    }

    /** ntp_joiner_add_target() */
    method AddTarget(t: Rec)
      requires Valid()
      modifies Repr
      ensures Valid() && fresh(Repr - old(Repr))
      ensures View() == After(old(View()), Op.AddTarget(t))
    {
      ghost var j := View();
      WaitTarget(t);
      AddIs(j, View(), t);
    }

    /** ntp_joiner_match() */
    method Match(h: Rec) returns (out: Option<Rec>)
      requires Valid()
      modifies Repr
      ensures Valid() && fresh(Repr - old(Repr))
      ensures out == First(old(View()).targets, IdIs(h.id))
      ensures View() == After(old(View()), Op.Match(h))
    {
      MatchIs(View(), h);
      out := TakeTarget(h.id);
      if out.Some? {
        Count(st.(matched := st.matched + 1));
      } else {
        Count(st.(unmatched := st.unmatched + 1));
      }
    }

    /** ntp_joiner_target_arrives() */
    method TargetArrives(t: Rec) returns (host: Option<Rec>)
      requires Valid()
      modifies Repr
      ensures Valid() && fresh(Repr - old(Repr))
      ensures host == First(old(View()).hosts, IdIs(t.id))
      ensures View() == After(old(View()), Op.TargetArrives(t))
    {
      TargetIs(View(), t);
      host := TakeHost(t.id);
      if host.Some? {
        Count(st.(added := st.added + 1, matched := st.matched + 1));
      } else {
        AddTarget(t);
      }
    }

    /** ntp_joiner_host_arrives() */
    method HostArrives(h: Rec) returns (out: Option<Rec>)
      requires Valid()
      modifies Repr
      ensures Valid() && fresh(Repr - old(Repr))
      ensures out == First(old(View()).targets, IdIs(h.id))
      ensures View() == After(old(View()), Op.HostArrives(h))
    {
      HostIs(View(), h);
      out := TakeTarget(h.id);
      if out.Some? {
        Count(st.(matched := st.matched + 1));
      } else {
        WaitHost(h);
      }
    }

    /** Its second half: the host record waits, and one that has to make room counts as unmatched. */
    method WaitHost(h: Rec)
      requires Valid()
      modifies this`Repr, this`st, hosts.Repr
      ensures Valid() && fresh(Repr - old(Repr))
      ensures var j := old(View());
              View() == j.(hosts := Push(j.hosts, h, j.maxPerKey),
                           st := j.st.(unmatched := j.st.unmatched + |Dropped(j.hosts, h, j.maxPerKey)|))
    {
      var dropped := PushHost(h);
      if dropped {
        Count(st.(unmatched := st.unmatched + 1));
      }
    }

    /** ntp_joiner_release_hosts(): the callback gets each host record that completed before, key by key in order. */
    method ReleaseHosts(before: int) returns (released: seq<Rec>)
      requires Valid()
      modifies Repr
      ensures Valid() && fresh(Repr - old(Repr))
      ensures View() == After(old(View()), Op.Release(before))
      ensures multiset(released) == multiset(Filter(old(View()).hosts, Before(before)))
      ensures forall k :: Filter(released, KeyIs(k)) == Filter(Filter(old(View()).hosts, Before(before)), KeyIs(k))
    {
      AgeingIs(View(), before);
      released := hosts.Expire(before);
      Count(st.(unmatched := st.unmatched + |released|));
      SameByKey(released, Filter(old(View()).hosts, Before(before)));
    }

    /** ntp_joiner_expire() */
    method Expire(before: int) returns (dropped: nat)
      requires Valid()
      modifies Repr
      ensures Valid() && fresh(Repr - old(Repr))
      ensures View() == After(old(View()), Op.Expire(before))
      ensures dropped == |Filter(old(View()).targets, Before(before))|
    {
      AgeingIs(View(), before);
      var fired := targets.Expire(before);
      dropped := |fired|;
      Count(st.(expired := st.expired + dropped));
    }

    /** ntp_joiner_pending() and ntp_joiner_waiting_hosts() */
    method Waiting() returns (pending: nat, waitingHosts: nat)
      requires Valid()
      ensures pending == |View().targets| && waitingHosts == |View().hosts|
    {
      pending, waitingHosts := targets.pending, hosts.pending;
    }
  }
}
