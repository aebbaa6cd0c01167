/** Who is admitted, told by the calls that are really there. */
module Admission {
  import opened Common
  import opened Stats
  import opened Calls
  import opened Exchange
  import Keeping
  import Theorems
  import Limits
  import Registry

  predicate Granted(s: System, t: nat, reg: nat, cid: nat) {
    t < |s.invites| && s.invites[t] == Reserved(reg, cid)
  }

  /** Both directions, as sixteen bits show them. */
  ghost function Shown(cfg: Config, s: System, n: nat): nat {
    Theorems.InUse(cfg, s, n, INCOMING) % SHORT + Theorems.InUse(cfg, s, n, OUTGOING) % SHORT
  }

  /** Room for one more call of registration `reg`: there is no limit, no node to
      count on, or the limit is above what the counters show. */
  ghost predicate Room(cfg: Config, s: System, reg: nat)
    requires reg < |cfg.regs|
  {
    var r := cfg.regs[reg];
    r.limit == 0 || r.node == None || Shown(cfg, s, r.node.value) < r.limit
  }

  /** In every reachable state an invite is admitted iff there is room; it then
      holds a reservation, which counts once more on its registration's node and on
      no other, and nothing else is touched.  A refusal changes nothing at all. */
  lemma AdmittedIffRoom(cfg: Config, s: System, t: nat, reg: nat, cid: nat)
    requires Theorems.Reachable(cfg, s) && Enabled(cfg, s, DoAttach(t, reg, cid))
    ensures var s' := Next(cfg, s, DoAttach(t, reg, cid));
            && (Granted(s', t, reg, cid) <==> Room(cfg, s, reg))
            && (!Granted(s', t, reg, cid) ==> s' == s)
            && s'.invites == (if Granted(s', t, reg, cid) then s.invites[t := Reserved(reg, cid)] else s.invites)
            && s'.core == s.core.(nodes := s'.core.nodes)
            && (forall n: nat, e: Entry :: Theorems.InUse(cfg, s', n, e) ==
                  Theorems.InUse(cfg, s, n, e) +
                  if Granted(s', t, reg, cid) && e == INCOMING && cfg.regs[reg].node == Some(n) then 1 else 0)
  {
    hide Inv, Room, Shown, Theorems.InUse, Theorems.Reachable;
    var s' := Next(cfg, s, DoAttach(t, reg, cid));
    Theorems.NextReachable(cfg, s, DoAttach(t, reg, cid));
    Theorems.ReachableIsSafe(cfg, s);
    Theorems.ReachableIsSafe(cfg, s');
    RoomIsTested(cfg, s, reg);
    Keeping.HoldChange(cfg, s, s', t, s'.invites[t]);
    forall n: nat, e: Entry
      ensures Theorems.InUse(cfg, s', n, e) ==
              Theorems.InUse(cfg, s, n, e) +
              if Granted(s', t, reg, cid) && e == INCOMING && cfg.regs[reg].node == Some(n) then 1 else 0
    {
      Theorems.TotalIsInUse(cfg, s, n, e);
      Theorems.TotalIsInUse(cfg, s', n, e);
    }
  }

  lemma RoomIsTested(cfg: Config, s: System, reg: nat)
    requires Theorems.Reachable(cfg, s) && reg < |cfg.regs|
    ensures cfg.regs[reg].node.Some? ==> cfg.regs[reg].node.value < |s.core.nodes|
    ensures Room(cfg, s, reg) <==>
            cfg.regs[reg].node == None || Registry.Admits(cfg.regs[reg].limit, s.core.nodes[cfg.regs[reg].node.value])
  {
    Theorems.ReachableIsSafe(cfg, s);
    if cfg.regs[reg].node.Some? {
      Theorems.NodeCounts(cfg, s, cfg.regs[reg].node.value);
    }
  }

  /** For a limit that sixteen bits can hold, "room" is what it says: a call is
      admitted iff the registration has fewer calls than its limit. */
  lemma BelowLimitIsAdmitted(cfg: Config, s: System, t: nat, reg: nat, cid: nat)
    requires Theorems.Reachable(cfg, s) && Enabled(cfg, s, DoAttach(t, reg, cid))
    requires cfg.regs[reg].node.Some? && 0 < cfg.regs[reg].limit < SHORT
    ensures Granted(Next(cfg, s, DoAttach(t, reg, cid)), t, reg, cid) <==>
            Theorems.InUse(cfg, s, cfg.regs[reg].node.value, INCOMING) +
            Theorems.InUse(cfg, s, cfg.regs[reg].node.value, OUTGOING) < cfg.regs[reg].limit
  {
    hide Next, Theorems.InUse, Theorems.Reachable;
    var n := cfg.regs[reg].node.value;
    AdmittedIffRoom(cfg, s, t, reg, cid);
    Theorems.AdmissionControl(cfg, s, reg);
    Theorems.Wrapped(Theorems.InUse(cfg, s, n, INCOMING));
    Theorems.Wrapped(Theorems.InUse(cfg, s, n, OUTGOING));
  }
}
