/** One grant at a time among several ports, by fixed priority or in turn. */
module Arbiter {
  import opened PriorityEncoder

  datatype Config = Config(ports: nat, roundRobin: bool, block: bool, blockAck: bool, lsbFirst: bool) {
    predicate Valid() {
      1 <= ports
    }
  }

  // The granted port, and the ports still to come in this round.
  datatype State = State(valid: bool, port: nat, mask: seq<bool>)

  function Nothing(ports: nat): seq<bool> {
    seq(ports, _ => false)
  }

  function Initial(c: Config): State {
    State(false, 0, Nothing(c.ports))
  }

  // Port bits are as many as there are ports.
  predicate Fits(c: Config, s: State) {
    c.Valid() && |s.mask| == c.ports && s.port < c.ports
  }

  predicate Granted(s: State, p: nat) {
    s.valid && s.port == p
  }

  predicate Holds(c: Config, s: State, request: seq<bool>, acknowledge: seq<bool>)
    requires Fits(c, s) && |request| == |acknowledge| == c.ports
  {
    c.block && if c.blockAck then s.valid && !acknowledge[s.port] else s.valid && request[s.port]
  }

  function Masked(request: seq<bool>, mask: seq<bool>): (r: seq<bool>)
    requires |request| == |mask|
    ensures |r| == |request|
  {
    seq(|request|, k requires 0 <= k < |request| => request[k] && mask[k])
  }

  // The ports after the granted one: all ones shifted by it.
  function After(c: Config, port: nat): (m: seq<bool>)
    ensures |m| == c.ports
  {
    seq(c.ports, k => if c.lsbFirst then k > port else k < port)
  }

  // The port a new decision picks.
  function Pick(c: Config, s: State, request: seq<bool>): (p: nat)
    requires Fits(c, s) && |request| == c.ports && Any(request)
    ensures p < c.ports && request[p]
  {
    EncodeIsExact(request, c.lsbFirst);
    EncodeIsExact(Masked(request, s.mask), c.lsbFirst);
    var masked := Encode(Masked(request, s.mask), c.lsbFirst);
    if c.roundRobin && masked.valid then masked.index else Encode(request, c.lsbFirst).index
  }

  function Next(c: Config, s: State, request: seq<bool>, acknowledge: seq<bool>): (r: State)
    requires Fits(c, s) && |request| == |acknowledge| == c.ports
    ensures Fits(c, r)
  {
    if Holds(c, s, request, acknowledge) then s
    else if Any(request) then
      var p := Pick(c, s, request);
      State(true, p, if c.roundRobin then After(c, p) else s.mask)
    else State(false, 0, s.mask)
  }

  // A blocking arbiter keeps a grant until it is acknowledged or, without acknowledgements, for as
  // long as it is requested. Otherwise a port that requests is granted, if there is one.
  lemma KeepsGrant(c: Config, s: State, request: seq<bool>, acknowledge: seq<bool>)
    requires Fits(c, s) && |request| == |acknowledge| == c.ports
    ensures var t := Next(c, s, request, acknowledge);
      var kept := c.block && s.valid && (if c.blockAck then !acknowledge[s.port] else request[s.port]);
      if kept then t == s
      else (t.valid <==> Any(request)) && (t.valid ==> request[t.port])
  {
    hide Pick;
  }

  /* Fixed priority. */

  lemma FixedPriority(c: Config, s: State, request: seq<bool>)
    requires Fits(c, s) && |request| == c.ports && Any(request) && !c.roundRobin
    ensures Chosen(request, Pick(c, s, request), c.lsbFirst)
  {
    EncodeIsExact(request, c.lsbFirst);
  }

  /* Taking turns. */

  // The mask always says "after port m": the last one granted, or the last of all at the start.
  predicate InTurn(c: Config, s: State, m: nat) {
    m < c.ports && s.mask == After(c, m)
  }

  lemma StartsInTurn(c: Config)
    requires c.Valid()
    ensures InTurn(c, Initial(c), if c.lsbFirst then c.ports - 1 else 0)
  {
  }

  // How many ports come between port `m` and port `p`, going around.
  function Between(c: Config, m: nat, p: nat): (d: nat)
    requires m < c.ports && p < c.ports
    ensures d < c.ports
  {
    if c.lsbFirst then if p > m then p - m - 1 else p + c.ports - m - 1
    else if p < m then m - p - 1 else m + c.ports - p - 1
  }

  // The decision in turn picks the requesting port that comes soonest after the last.
  lemma PickIsSoonest(c: Config, s: State, request: seq<bool>, m: nat, p: nat)
    requires Fits(c, s) && |request| == c.ports && c.roundRobin && InTurn(c, s, m) && p < c.ports && request[p]
    ensures Any(request) && Between(c, m, Pick(c, s, request)) <= Between(c, m, p)
  {
    EncodeIsExact(request, c.lsbFirst);
    EncodeIsExact(Masked(request, s.mask), c.lsbFirst);
    var masked := Masked(request, s.mask);
    if masked[p] {
      assert Any(masked);
    }
  }

  // A port that keeps requesting comes closer with every decision that passes it over.
  lemma WaitShrinks(c: Config, s: State, request: seq<bool>, acknowledge: seq<bool>, m: nat, p: nat)
    requires Fits(c, s) && |request| == |acknowledge| == c.ports && c.roundRobin && InTurn(c, s, m)
    requires p < c.ports && request[p] && !Holds(c, s, request, acknowledge)
    ensures var t := Next(c, s, request, acknowledge);
      && t.valid && InTurn(c, t, t.port)
      && (t.port != p ==> Between(c, t.port, p) < Between(c, m, p))
  {
    PickIsSoonest(c, s, request, m, p);
  }

  datatype Cycle = Cycle(request: seq<bool>, acknowledge: seq<bool>)

  predicate Sized(c: Config, cycles: seq<Cycle>) {
    forall x :: x in cycles ==> |x.request| == |x.acknowledge| == c.ports
  }

  // Decisions made, with port `p` never granted by one.
  function PassedOver(c: Config, s: State, cycles: seq<Cycle>, p: nat): (n: nat)
    requires Fits(c, s) && Sized(c, cycles)
    decreases |cycles|
  {
    if cycles == [] then 0
    else
      var x := cycles[0];
      var t := Next(c, s, x.request, x.acknowledge);
      if Holds(c, s, x.request, x.acknowledge) then PassedOver(c, t, cycles[1..], p)
      else if Granted(t, p) then 0
      else 1 + PassedOver(c, t, cycles[1..], p)
  }

  // So a port that keeps requesting is passed over fewer times than there are ports.
  lemma {:induction false} NobodyStarves(c: Config, s: State, cycles: seq<Cycle>, m: nat, p: nat)
    requires Fits(c, s) && Sized(c, cycles) && c.roundRobin && InTurn(c, s, m) && p < c.ports
    requires forall x :: x in cycles ==> |x.request| == c.ports && x.request[p]
    ensures PassedOver(c, s, cycles, p) <= Between(c, m, p)
    decreases |cycles|
  {
    if cycles != [] {
      var x := cycles[0];
      var t := Next(c, s, x.request, x.acknowledge);
      if Holds(c, s, x.request, x.acknowledge) {
        NobodyStarves(c, t, cycles[1..], m, p);
      } else {
        WaitShrinks(c, s, x.request, x.acknowledge, m, p);
        if !Granted(t, p) {
          NobodyStarves(c, t, cycles[1..], t.port, p);
        }
      }
    }
  }

  /* The registers, updated in place. */

  class Unit {
    const cfg: Config
    var valid: bool
    var port: nat
    var mask: seq<bool>

    function Now(): State
      reads this
    {
      State(valid, port, mask)
    }

    constructor (c: Config)
      requires c.Valid()
      ensures cfg == c && Now() == Initial(c) && Fits(cfg, Now())
    {
      cfg := c;
      valid, port, mask := false, 0, Nothing(c.ports);
    }

    method Clock(request: seq<bool>, acknowledge: seq<bool>)
      requires Fits(cfg, Now()) && |request| == |acknowledge| == cfg.ports
      modifies this
      ensures Now() == Next(cfg, old(Now()), request, acknowledge)
    {
      if cfg.block && !cfg.blockAck && valid && request[port] {
        // held for as long as it is requested
      } else if cfg.block && cfg.blockAck && valid && !acknowledge[port] {
        // held until it is acknowledged
      } else {
        EncodeIsExact(request, cfg.lsbFirst);
        var plain := Encode(request, cfg.lsbFirst);
        if plain.valid {
          var masked := Encode(Masked(request, mask), cfg.lsbFirst);
          valid, port := true, if cfg.roundRobin && masked.valid then masked.index else plain.index;
          if cfg.roundRobin {
            mask := After(cfg, port);
          }
        } else {
          valid, port := false, 0;
        }
      }
    }
  }
}
