/** What the pool's methods do at one go is what the steps of the transition system do one after the other. */
module PoolAlone {
  import opened Options
  import opened PoolState
  import opened PoolSystem
  import opened VmPool

  /** A release with nothing in between. */
  lemma ReleaseAlone(c: Core, t: nat, vm: string, session: string, now: int)
    requires t !in c.teardowns
    ensures
      var began := BeginRelease(c, t, vm, session);
      if t in began.teardowns then Retiring(began, now, ReleaseEnd(t)).pool == Released(c.pool, vm, session)
      else began.pool == Released(c.pool, vm, session)
  {
  }

  /** A request provisioned with nothing in between. */
  lemma RequestAlone(c: Core, t: nat, cid: nat, session: string, user: string, pid: string, name: string, now: int)
    requires t !in c.provisions
    ensures
      var served := Insert(Define(Reserve(c, t, cid, ForSession(session, user)), t, pid, name), t, now);
      && served.pool.used == c.pool.used + {cid} && served.provisions == c.provisions
      && served.pool.vms == c.pool.vms[name :=
           Entry(name, ["dynamic"], Assigned(session, now), 1, true, Some(pid), Some(cid), Some(user))]
  {
    assert Define(Reserve(c, t, cid, ForSession(session, user)), t, pid, name).provisions - {t} == c.provisions;
  }

  /** A refill with nothing in between. */
  lemma RefillAlone(c: Core, t: nat, cid: nat, pid: string, name: string, now: int)
    requires t !in c.provisions
    ensures
      var filled := Insert(Define(Reserve(c, t, cid, ForWarmPool), t, pid, name), t, now);
      && filled.pool == WithWarm(c.pool, CloneAnswer.Cloned(pid, name, true), cid, now) && filled.provisions == c.provisions
      && filled.pool.vms == c.pool.vms[name :=
           Entry(name, ["dynamic"], WarmReady(now), 0, true, Some(pid), Some(cid), None)]
  {
    assert Define(Reserve(c, t, cid, ForWarmPool), t, pid, name).provisions - {t} == c.provisions;
  }

  /** A provision given up leaves no trace. */
  lemma GiveUpAlone(c: Core, t: nat, cid: nat, purpose: Purpose)
    requires t !in c.provisions && cid !in c.pool.used
    ensures GiveUp(Reserve(c, t, cid, purpose), t) == c
  {
    var r := Reserve(c, t, cid, purpose);
    assert r.provisions - {t} == c.provisions && r.pool.used - {cid} == c.pool.used;
  }
}
