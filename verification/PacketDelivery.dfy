/** What the emitted packet configuration does: every declared packet reaches exactly its destinations. */
module PacketDelivery {
  import opened Common
  import opened PacketTypes
  import opened PacketGroups
  import opened PacketGroupsProof
  import opened PacketGroupsRuns
  import opened AmselModel
  import opened PacketSwitch

  // ---- master ports

  /** The bits an eight-bit select word can hold. */
  function SelectBits(amsels: seq<Amsel>): (bits: set<nat>)
  {
    set k | 0 <= k < |amsels| && amsels[k].1 < 8 :: amsels[k].1
  }

  method ConfigureMaster(amsels: seq<Amsel>) returns (m: Master)
    ensures m.masterSelect == SelectBits(amsels)
    ensures m.arbiterId == if amsels == [] then -1 else amsels[|amsels| - 1].0
  {
    m := Master(-1, {});
    for k := 0 to |amsels|
      invariant m.masterSelect == SelectBits(amsels[..k])
      invariant m.arbiterId == if k == 0 then -1 else amsels[k - 1].0
    {
      m := Master(amsels[k].0, m.masterSelect + if amsels[k].1 < 8 then {amsels[k].1} else {});
      SelectBitsNext(amsels, k);
    }
    assert amsels[..|amsels|] == amsels;
  }

  lemma SelectBitsNext(amsels: seq<Amsel>, k: nat)
    requires k < |amsels|
    ensures SelectBits(amsels[..k + 1]) == SelectBits(amsels[..k]) + if amsels[k].1 < 8 then {amsels[k].1} else {}
  {
    var b, b' := SelectBits(amsels[..k]), SelectBits(amsels[..k + 1]);
    forall x | x in b
      ensures x in b'
    {
      var i :| 0 <= i < k && amsels[..k][i].1 < 8 && amsels[..k][i].1 == x;
      assert amsels[..k + 1][i].1 == x;
    }
    assert amsels[..k + 1][k] == amsels[k];
    forall x | x in b'
      ensures x in b || x == amsels[k].1
    {
      var i :| 0 <= i < k + 1 && amsels[..k + 1][i].1 < 8 && amsels[..k + 1][i].1 == x;
      if i < k {
        assert amsels[..k][i].1 == x;
      }
    }
  }

  ghost predicate MastersOk(sets: Mastersets, masters: map<PhysPort, Master>)
  {
    && (forall p :: p in masters <==> p in sets)
    && (forall p :: p in masters ==> sets[p] != [] && IsMaster(sets[p], masters[p]))
  }

  ghost predicate IsMaster(amsels: seq<Amsel>, m: Master)
    requires amsels != []
  {
    m.masterSelect == SelectBits(amsels) && m.arbiterId == amsels[|amsels| - 1].0
  }

  method ConfigureMasters(sets: Mastersets) returns (masters: map<PhysPort, Master>)
    requires forall p :: p in sets ==> sets[p] != []
    ensures MastersOk(sets, masters)
  {
    masters := map[];
    var todo := sets.Keys;
    while todo != {}
      invariant todo <= sets.Keys && masters.Keys == sets.Keys - todo
      invariant forall p :: p in masters ==> IsMaster(sets[p], masters[p])
    {
      var p :| p in todo;
      var m := ConfigureMaster(sets[p]);
      masters := masters[p := m];
      todo := todo - {p};
    }
  }

  /** Every master port has a single arbiter: the pairs of its master set agree on it. */
  lemma SingleArbiter(flows: Flows, limits: TileLoc -> Limits, sets: Mastersets, slaves: map<PhysPortAndID, Amsel>,
                      p: PhysPort, a: Amsel, b: Amsel)
    requires RoutingOk(flows, limits, sets, slaves) && a in Get(sets, p) && b in Get(sets, p)
    ensures a.0 == b.0
  {
    var s :| s in slaves && slaves[s] == a && Feeds(flows, s, p);
    var r :| r in slaves && slaves[r] == b && Feeds(flows, r, p);
  }

  /** A rule that carries the pair of source `s` sends to the destinations of `s` and nowhere else. */
  lemma DeliversExactly(flows: Flows, limits: TileLoc -> Limits, sets: Mastersets, slaves: map<PhysPortAndID, Amsel>,
                        masters: map<PhysPort, Master>, s: PhysPortAndID)
    requires FlowsOk(flows) && RoutingOk(flows, limits, sets, slaves) && MastersOk(sets, masters)
    requires s in flows && limits(s.physPort.tile).numMSels <= 8
    ensures Delivered(masters, s.physPort.tile, slaves[s]) == PhysPortsOf(flows[s])
  {
    hide FlowsOk;
    forall p
      ensures p in PhysPortsOf(flows[s]) <==> p in Delivered(masters, s.physPort.tile, slaves[s])
    {
      assert p in PhysPortsOf(flows[s]) <==> Feeds(flows, s, p);
      hide Feeds;
      if Feeds(flows, s, p) {
        FedTile(flows, s, p);
        FedSelected(flows, limits, sets, slaves, masters, s, p);
      }
      if p in Delivered(masters, s.physPort.tile, slaves[s]) {
        SelectedFed(flows, limits, sets, slaves, masters, s, p);
      }
    }
  }

  lemma FedSelected(flows: Flows, limits: TileLoc -> Limits, sets: Mastersets, slaves: map<PhysPortAndID, Amsel>,
                    masters: map<PhysPort, Master>, s: PhysPortAndID, p: PhysPort)
    requires RoutingOk(flows, limits, sets, slaves) && MastersOk(sets, masters)
    requires s in flows && limits(s.physPort.tile).numMSels <= 8 && Feeds(flows, s, p)
    ensures p in masters && masters[p].arbiterId == slaves[s].0 && slaves[s].1 in masters[p].masterSelect
  {
    hide Feeds, ArbitersAgree, PairsAgree;
    var amsels := Get(sets, p);
    assert slaves[s] in amsels;
    assert amsels[|amsels| - 1] in amsels;
    SingleArbiter(flows, limits, sets, slaves, p, slaves[s], amsels[|amsels| - 1]);
  }

  lemma SelectedFed(flows: Flows, limits: TileLoc -> Limits, sets: Mastersets, slaves: map<PhysPortAndID, Amsel>,
                    masters: map<PhysPort, Master>, s: PhysPortAndID, p: PhysPort)
    requires FlowsOk(flows) && RoutingOk(flows, limits, sets, slaves) && MastersOk(sets, masters) && s in flows
    requires p in Delivered(masters, s.physPort.tile, slaves[s])
    ensures Feeds(flows, s, p)
  {
    hide Feeds, FlowsOk;
    var amsels := sets[p];
    var k :| 0 <= k < |amsels| && amsels[k].1 == slaves[s].1;
    assert amsels[k] in Get(sets, p) && amsels[|amsels| - 1] in Get(sets, p);
    SingleArbiter(flows, limits, sets, slaves, p, amsels[k], amsels[|amsels| - 1]);
    assert amsels[k] == slaves[s];
    var r :| r in slaves && slaves[r] == slaves[s] && Feeds(flows, r, p);
    FedTile(flows, r, p);
  }

  // ---- slave rules

  /** Rule by rule: mask and ID of the group's smallest member, and the pair of any member. */
  ghost predicate RulesFor(rules: seq<Rule>, p: PhysPort, gs: seq<Group>, masks: Masks, slaves: map<PhysPortAndID,
                           Amsel>)
    requires HaveMasks(p, gs, masks)
  {
    |rules| == |gs| && forall i :: 0 <= i < |gs| ==> RuleFor(rules[i], p, gs[i], masks, slaves)
  }

  ghost predicate RuleFor(rule: Rule, p: PhysPort, g: Group, masks: Masks, slaves: map<PhysPortAndID, Amsel>)
    requires g != [] && PhysPortAndID(p, g[0]) in masks
  {
    && rule.id == g[0] && rule.mask == masks[PhysPortAndID(p, g[0])]
    && exists y :: y in g && PhysPortAndID(p, y) in slaves && rule.amsel == slaves[PhysPortAndID(p, y)]
  }

  /** The rules of one port, unless there are more groups than rule slots. */
  method EmitRules(p: PhysPort, gs: seq<Group>, masks: Masks, slaves: map<PhysPortAndID, Amsel>, numSlots: nat)
    returns (ok: bool, rules: seq<Rule>)
    requires HaveMasks(p, gs, masks) && forall i :: 0 <= i < |gs| ==> PhysPortAndID(p, gs[i][0]) in slaves
    ensures ok <==> |gs| <= numSlots
    ensures ok ==> RulesFor(rules, p, gs, masks, slaves)
  {
    rules := [];
    if |gs| > numSlots { return false, rules; }
    for i := 0 to |gs|
      invariant |rules| == i && forall k :: 0 <= k < i ==> RuleFor(rules[k], p, gs[k], masks, slaves)
    {
      var key := PhysPortAndID(p, gs[i][0]);
      assert gs[i][0] in gs[i];
      rules := rules + [Rule(masks[key], gs[i][0], slaves[key])];
    }
    return true, rules;
  }

  /** The hardware's search through the rules is the first-rule search through the groups. */
  lemma {:induction false} RouteIsFirstRule(rules: seq<Rule>, masters: map<PhysPort, Master>, p: PhysPort,
                                            gs: seq<Group>, masks: Masks,
                                            slaves: map<PhysPortAndID, Amsel>, x: Id, i: nat)
    requires HaveMasks(p, gs, masks) && RulesFor(rules, p, gs, masks, slaves) && i <= |gs|
    ensures var first := FirstRule(p, gs, masks, x, i);
            && (first == None ==> Route(rules[i..], masters, p.tile, x) == None)
            && (first.Some? ==> i <= first.value < |rules|)
            && (first.Some? ==>
                  Route(rules[i..], masters, p.tile, x) == Some(Delivered(masters, p.tile, rules[first.value].amsel)))
    decreases |gs| - i
  {
    if i < |gs| {
      RouteIsFirstRule(rules, masters, p, gs, masks, slaves, x, i + 1);
      assert rules[i..][0] == rules[i] && rules[i..][1..] == rules[i + 1..];
      assert RuleFor(rules[i], p, gs[i], masks, slaves);
    }
  }

  // ---- end to end

  /**
   * On a good port, a packet with a declared ID reaches exactly its declared destinations, whichever
   * group member's pair the rule carries.
   */
  lemma PacketDelivered(flows: Flows, limits: TileLoc -> Limits, sets: Mastersets, slaves: map<PhysPortAndID, Amsel>,
                        masters: map<PhysPort, Master>, workList: seq<PhysPortAndID>, numMaskBits: nat,
                        rules: seq<Rule>, s: PhysPortAndID)
    requires FlowsOk(flows) && RoutingOk(flows, limits, sets, slaves) && MastersOk(sets, masters)
    requires ListOk(workList, DestsOf(flows), numMaskBits) && s in workList && limits(s.physPort.tile).numMSels <= 8
    requires PortGood(workList, DestsOf(flows), numMaskBits, s.physPort)
    requires var e := After(workList, DestsOf(flows), numMaskBits);
             && HaveMasks(s.physPort, GroupsAt(e, s.physPort), e.masks)
             && RulesFor(rules, s.physPort, GroupsAt(e, s.physPort), e.masks, slaves)
    ensures Route(rules, masters, s.physPort.tile, s.id) == Some(PhysPortsOf(flows[s]))
  {
    hide FlowsOk, RoutingOk, MastersOk, PortGood, ListOk, After;
    var e := After(workList, DestsOf(flows), numMaskBits);
    var p := s.physPort;
    var gs := GroupsAt(e, p);
    RulesPreserveDests(workList, DestsOf(flows), numMaskBits, s);
    hide FirstRule;
    RouteIsFirstRule(rules, masters, p, gs, e.masks, slaves, s.id, 0);
    assert rules[0..] == rules;
    var i := FirstRule(p, gs, e.masks, s.id, 0).value;
    assert RuleFor(rules[i], p, gs[i], e.masks, slaves);
    var y :| y in gs[i] && PhysPortAndID(p, y) in slaves && rules[i].amsel == slaves[PhysPortAndID(p, y)];
    DeliversExactly(flows, limits, sets, slaves, masters, PhysPortAndID(p, y));
    assert DestsOf(flows)[PhysPortAndID(p, y)] == DestsOf(flows)[s];
  }

  /** All ports have rules for their groups. */
  ghost predicate AllRulesFor(rules: map<PhysPort, seq<Rule>>, groups: map<PhysPort, seq<Group>>, masks: Masks,
                              slaves: map<PhysPortAndID, Amsel>)
  {
    forall p :: p in rules ==>
      p in groups && HaveMasks(p, groups[p], masks) && RulesFor(rules[p], p, groups[p], masks, slaves)
  }

  ghost predicate GroupsKnown(groups: map<PhysPort, seq<Group>>, masks: Masks, slaves: map<PhysPortAndID, Amsel>)
  {
    forall p :: p in groups ==>
      HaveMasks(p, groups[p], masks) && forall i :: 0 <= i < |groups[p]| ==> PhysPortAndID(p, groups[p][i][0]) in slaves
  }

  method EmitAllRules(groups: map<PhysPort, seq<Group>>, masks: Masks, slaves: map<PhysPortAndID, Amsel>,
                      limits: TileLoc -> Limits)
    returns (ok: bool, rules: map<PhysPort, seq<Rule>>)
    requires GroupsKnown(groups, masks, slaves)
    ensures ok ==> rules.Keys == groups.Keys && AllRulesFor(rules, groups, masks, slaves)
    ensures ok <==> forall p :: p in groups ==> |groups[p]| <= limits(p.tile).numSlots
  {
    hide HaveMasks, RulesFor;
    rules := map[];
    var todo := groups.Keys;
    while todo != {}
      invariant todo <= groups.Keys && rules.Keys == groups.Keys - todo && AllRulesFor(rules, groups, masks, slaves)
      invariant forall p :: p in rules ==> |groups[p]| <= limits(p.tile).numSlots
    {
      var p :| p in todo;
      var done, portRules := EmitRules(p, groups[p], masks, slaves, limits(p.tile).numSlots);
      if !done { return false, rules; }
      rules := rules[p := portRules];
      todo := todo - {p};
    }
    return true, rules;
  }

  ghost predicate TooManyRules(e: Emitted, limits: TileLoc -> Limits)
  {
    exists p :: p in e.groups && |e.groups[p]| > limits(p.tile).numSlots
  }

  lemma EmittedKnown(e: Emitted, flows: Flows, slaves: map<PhysPortAndID, Amsel>)
    requires Usable(e, DestsOf(flows)) && forall s :: s in slaves <==> s in flows
    ensures GroupsKnown(e.groups, e.masks, slaves)
  {
    forall p | p in e.groups
      ensures HaveMasks(p, e.groups[p], e.masks) && InDests(p, e.groups[p], DestsOf(flows))
    {
    }
  }

  /**
   * Compiling all flows, from any work list: if a configuration comes out, then every packet of a good
   * port reaches exactly the destination ports of its flow. Ports whose entries are all distinct are good.
   * None comes out exactly if the flows cannot be given pairs or a port needs more rules than it has slots.
   */
  method ConfigureSwitches(flows: Flows, order: seq<PhysPortAndID>, workList: seq<PhysPortAndID>,
                           limits: TileLoc -> Limits, numMaskBits: nat) returns (r: Option<SwitchConfig>)
    requires FlowsOk(flows) && NoDup(order) && forall s :: s in order <==> s in flows
    requires ListOk(workList, DestsOf(flows), numMaskBits)
    requires forall s :: s in workList ==> limits(s.physPort.tile).numMSels <= 8
    ensures r.Some? ==> forall s :: s in workList && PortGood(workList, DestsOf(flows), numMaskBits, s.physPort) ==>
              && s.physPort in r.value.rules
              && Route(r.value.rules[s.physPort], r.value.masters, s.physPort.tile, s.id) == Some(PhysPortsOf(flows[s]))
    ensures r == None <==>
              !Routable(flows, order, limits) || TooManyRules(After(workList, DestsOf(flows), numMaskBits), limits)
    ensures r == None ==> NoRouting(flows, limits) || TooManyRules(After(workList, DestsOf(flows), numMaskBits), limits)
    ensures EnoughArbiters(flows, limits) ==>
              (r == None <==>
                NoRouting(flows, limits) || TooManyRules(After(workList, DestsOf(flows), numMaskBits), limits))
  {
    hide NoRouting, EnoughArbiters, Routable, FlowsOk, NoDup, Emission, Usable, GroupsKnown;
    hide AllRulesFor, MastersOk, Route, ArbitersAgree, PairsAgree, PortGood;
    var ok, sets, slaves := EmitPacketRouting(flows, order, limits);
    if !ok { return None; }
    assert forall p :: p in sets ==> sets[p] != [];
    var groups, masks := EmitSlaveGroupsAndMasks(workList, DestsOf(flows), numMaskBits);
    EmittedKnown(Emitted(groups, masks), flows, slaves);
    var rules;
    ok, rules := EmitAllRules(groups, masks, slaves, limits);
    if !ok { return None; }
    var masters := ConfigureMasters(sets);
    hide RoutingOk, ListOk;
    forall s | s in workList && PortGood(workList, DestsOf(flows), numMaskBits, s.physPort)
      ensures s.physPort in rules
      ensures Route(rules[s.physPort], masters, s.physPort.tile, s.id) == Some(PhysPortsOf(flows[s]))
    {
      EntryDelivered(flows, limits, sets, slaves, masters, workList, numMaskBits, rules, s);
    }
    return Some(SwitchConfig(rules, masters));
  }

  lemma EntryDelivered(flows: Flows, limits: TileLoc -> Limits, sets: Mastersets, slaves: map<PhysPortAndID, Amsel>,
                       masters: map<PhysPort, Master>, workList: seq<PhysPortAndID>, numMaskBits: nat,
                       rules: map<PhysPort, seq<Rule>>, s: PhysPortAndID)
    requires FlowsOk(flows) && RoutingOk(flows, limits, sets, slaves) && MastersOk(sets, masters)
    requires ListOk(workList, DestsOf(flows), numMaskBits) && s in workList && limits(s.physPort.tile).numMSels <= 8
    requires PortGood(workList, DestsOf(flows), numMaskBits, s.physPort)
    requires var e := After(workList, DestsOf(flows), numMaskBits);
             rules.Keys == e.groups.Keys && AllRulesFor(rules, e.groups, e.masks, slaves)
    ensures s.physPort in rules && s in flows
    ensures Route(rules[s.physPort], masters, s.physPort.tile, s.id) == Some(PhysPortsOf(flows[s]))
  {
    assert s in flows by {
      assert s in DestsOf(flows);
    }
    hide FlowsOk, RoutingOk, MastersOk, PortGood, After, ListOk, Route, RulesFor, HaveMasks;
    RulesPreserveDests(workList, DestsOf(flows), numMaskBits, s);
    PacketDelivered(flows, limits, sets, slaves, masters, workList, numMaskBits, rules[s.physPort], s);
  }
}
