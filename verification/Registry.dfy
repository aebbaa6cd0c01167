/** A registration and its call limit (common/registry.cpp).  The limit test and
    the count are one step under the lock of the shared statistics node. */
module Registry {
  import Common
  import opened Stats

  /** `limit > stats->active()`, with 0 for "no limit". */
  predicate Admits(limit: nat, n: Node) {
    limit == 0 || limit > n.Active()
  }

  class Registration {
    var limit: nat
    var stats: Statmap?

    ghost predicate Valid()
      reads this, stats
    {
      stats != null ==> stats.Valid()
    }

    constructor (limit: nat, stats: Statmap?)
      requires stats != null ==> stats.Valid()
      ensures Valid() && this.limit == limit && this.stats == stats
    {
      this.limit, this.stats := limit, stats;
    }

    method Attach(stat: Entry) returns (rtn: bool)
      requires Valid()
      modifies stats
      ensures Valid()
      ensures stats == null ==> rtn
      ensures stats != null ==> rtn == Admits(limit, old(stats.View()))
      ensures stats != null ==> stats.View() == if rtn then Updated(old(stats.View()), stat) else old(stats.View())
    {
      rtn := true;
      if stats == null {
        return;
      }
      var active := stats.Active();
      if limit == 0 || limit > active {
        stats.Update(stat);
      } else {
        rtn := false;
      }
    }

    method Release(stat: Entry, now: nat)
      requires Valid()
      modifies stats
      ensures Valid()
      ensures stats != null ==> stats.View() == Released(old(stats.View()), stat, now)
    {
      if stats != null {
        stats.Release(stat, now);
      }
    }
  }

  /** Undoing a reservation that found no slot restores both counts, so the
      next caller meets the same admission test. */
  lemma UndoRestoresAdmission(n: Node, e: Entry, limit: nat, now: nat)
    requires n.At(e).current < SHORT
    ensures var m := Released(Updated(n, e), e, now);
            m.Active() == n.Active() && (Admits(limit, m) <==> Admits(limit, n))
  {
    Common.WrapUp(n.At(e).current, SHORT);
    Common.WrapDown(n.At(e).current + 1, SHORT);
  }
}
